/** The self-contained steps of the bee-density heat controller in
    bee-aggregation-rob/robots/enhancer.py: the history buffer push, the CASU
    name, the configuration override, the log line, the sensor readings, the
    message intake, the smoothing and the heat rule. The `Enhancer` class that
    strings them together per cycle is in module `BeeAggregation`. */
module EnhancerSteps {
  import opened Wrappers
  import opened PyStrings
  import opened PyNumeric
  import opened ClipTemplate
  import opened BeeDensity
  import opened CasuIo
  import Interactions

  function Min(a: int, b: int): int
  {
    if a <= b then a else b
  }

  // ------------------------------------------------------------ push_data_1d

  /** A history buffer after `push_data_1d(arr, x)`: `x` in front, everything
      else one place back, the oldest entry gone, the length kept. */
  function Pushed(s: seq<real>, x: real): (r: seq<real>)
    requires |s| > 0
    ensures |r| == |s|
    ensures r[0] == x
    ensures forall i :: 1 <= i < |s| ==> r[i] == s[i - 1]
  {
    [x] + s[..|s| - 1]
  }

  /** `push_data_1d(arr, x)` on a numpy buffer, shifting in place. An empty
      buffer has no `arr[0]` and raises `IndexError` after the (empty) shift. */
  method PushData1d(arr: array<real>, x: real) returns (err: Option<PyError>)
    modifies arr
    ensures err.Some? <==> arr.Length == 0
    ensures err.Some? ==> err.value == IndexError
    ensures arr.Length > 0 ==> arr[..] == Pushed(old(arr[..]), x)
  {
    if arr.Length == 0 {
      return Some(IndexError);
    }
    var i := arr.Length - 1;
    while i > 0
      invariant 0 <= i < arr.Length
      invariant forall j :: 0 <= j <= i ==> arr[j] == old(arr[j])
      invariant forall j :: i < j < arr.Length ==> arr[j] == old(arr[j - 1])
    {
      arr[i] := arr[i - 1];
      i := i - 1;
    }
    arr[0] := x;
    return None;
  }

  /** Pushing a value inside `[lo, hi]` into a buffer inside `[lo, hi]` keeps it there. */
  lemma PushedWithin(s: seq<real>, x: real, lo: real, hi: real)
    requires |s| > 0
    requires forall i :: 0 <= i < |s| ==> lo <= s[i] <= hi
    requires lo <= x <= hi
    ensures forall i :: 0 <= i < |Pushed(s, x)| ==> lo <= Pushed(s, x)[i] <= hi
  {
  }

  // --------------------------------------------------------------- CASU name

  predicate EndsWithRtc(s: string)
  {
    |s| >= 4 && s[|s| - 4..] == ".rtc"
  }

  /** The CASU's name: the file part of its `.rtc` path (`os.path.split`),
      without the `.rtc` extension if it has one. */
  function CasuName(path: string): (name: string)
    ensures '/' !in name
    ensures EndsWithRtc(LastComponent(path)) ==> name + ".rtc" == LastComponent(path)
    ensures !EndsWithRtc(LastComponent(path)) ==> name == LastComponent(path)
  {
    LastComponentIsSuffix(path);
    var base := LastComponent(path);
    if EndsWithRtc(base) then base[..|base| - 4] else base
  }

  /** The usual case: `<dir>/<name>.rtc` names the CASU `<name>`. */
  lemma CasuNameOfRtcFile(dir: string, name: string)
    requires '/' !in name
    ensures CasuName(dir + "/" + name + ".rtc") == name
  {
    assert dir + "/" + name + ".rtc" == dir + "/" + (name + ".rtc");
    LastComponentAfterSlash(dir, name + ".rtc");
    assert (name + ".rtc")[..|name|] == name;
  }

  /** A bare name without directory or extension is taken as it is. */
  lemma CasuNameOfBareName(name: string)
    requires '/' !in name && !EndsWithRtc(name)
    ensures CasuName(name) == name
  {
    LastComponentOfPlainName(name);
  }

  // -------------------------------------------------------------- parse_conf

  /** The externally settable parameters of `Enhancer`. */
  datatype Params = Params(
    manualCalibOverride: bool, devVerb: int, devVerbDeep: int, verb: int,
    avgHistLen: nat, histLen: nat, maxMsgAge: int, maxSensors: real,
    selfWeight: real, minTemp: real, maxTemp: real, enableTemp: bool,
    refDeviate: real, mainLoopInterval: real, syncFlash: bool, syncInterval: real,
    initNoheatPeriodMins: real, initFixheatPeriodMins: real, initFixheatTemp: real)

  /** The class-level defaults. */
  const Defaults := Params(
    false, 5, 0, 1,
    60, 80, 20, 6.0,
    1.0, 28.0, 36.0, true,
    0.5, 0.2, true, 20.0,
    0.0, 0.0, 28.0)

  /** A configuration file's entries for the same parameters (`MANUAL_CALIB_OVERRIDE`,
      `DEV_VERB`, ..., `INIT_FIXHEAT_TEMP`); `None` where the key is absent or null. */
  datatype Conf = Conf(
    manualCalibOverride: Option<bool>, devVerb: Option<int>, devVerbDeep: Option<int>, verb: Option<int>,
    avgHistLen: Option<nat>, histLen: Option<nat>, maxMsgAge: Option<int>, maxSensors: Option<real>,
    selfWeight: Option<real>, minTemp: Option<real>, maxTemp: Option<real>, enableTemp: Option<bool>,
    refDeviate: Option<real>, mainLoopInterval: Option<real>, syncFlash: Option<bool>, syncInterval: Option<real>,
    initNoheatPeriodMins: Option<real>, initFixheatPeriodMins: Option<real>, initFixheatTemp: Option<real>)

  /** No configuration file. */
  const NoConf := Conf(
    None, None, None, None, None, None, None, None, None, None,
    None, None, None, None, None, None, None, None, None)

  /** `parse_conf`: every parameter takes its configured value if there is one,
      and keeps its default otherwise. */
  function ParseConf(defaults: Params, conf: Conf): Params
  {
    Params(
      conf.manualCalibOverride.GetOr(defaults.manualCalibOverride),
      conf.devVerb.GetOr(defaults.devVerb),
      conf.devVerbDeep.GetOr(defaults.devVerbDeep),
      conf.verb.GetOr(defaults.verb),
      conf.avgHistLen.GetOr(defaults.avgHistLen),
      conf.histLen.GetOr(defaults.histLen),
      conf.maxMsgAge.GetOr(defaults.maxMsgAge),
      conf.maxSensors.GetOr(defaults.maxSensors),
      conf.selfWeight.GetOr(defaults.selfWeight),
      conf.minTemp.GetOr(defaults.minTemp),
      conf.maxTemp.GetOr(defaults.maxTemp),
      conf.enableTemp.GetOr(defaults.enableTemp),
      conf.refDeviate.GetOr(defaults.refDeviate),
      conf.mainLoopInterval.GetOr(defaults.mainLoopInterval),
      conf.syncFlash.GetOr(defaults.syncFlash),
      conf.syncInterval.GetOr(defaults.syncInterval),
      conf.initNoheatPeriodMins.GetOr(defaults.initNoheatPeriodMins),
      conf.initFixheatPeriodMins.GetOr(defaults.initFixheatPeriodMins),
      conf.initFixheatTemp.GetOr(defaults.initFixheatTemp))
  }

  /** The configuration file that sets every parameter to the value in `p`. */
  function ConfOf(p: Params): Conf
  {
    Conf(
      Some(p.manualCalibOverride), Some(p.devVerb), Some(p.devVerbDeep), Some(p.verb),
      Some(p.avgHistLen), Some(p.histLen), Some(p.maxMsgAge), Some(p.maxSensors),
      Some(p.selfWeight), Some(p.minTemp), Some(p.maxTemp), Some(p.enableTemp),
      Some(p.refDeviate), Some(p.mainLoopInterval), Some(p.syncFlash), Some(p.syncInterval),
      Some(p.initNoheatPeriodMins), Some(p.initFixheatPeriodMins), Some(p.initFixheatTemp))
  }

  /** Without a configuration file every parameter keeps its default. */
  lemma ParseNoConf(defaults: Params)
    ensures ParseConf(defaults, NoConf) == defaults
  {
  }

  /** A file that names every parameter overrides every default. */
  lemma ParseFullConf(defaults: Params, p: Params)
    ensures ParseConf(defaults, ConfOf(p)) == p
  {
  }

  /** Reading the same file again changes nothing. */
  lemma ParseConfIdempotent(defaults: Params, conf: Conf)
    ensures ParseConf(ParseConf(defaults, conf), conf) == ParseConf(defaults, conf)
  {
  }

  /** The keys `parse_conf` looks up, in the order of its list. */
  datatype Key =
    | ManualCalibOverride | DevVerb | DevVerbDeep | Verb | AvgHistLen | HistLen | MaxMsgAge
    | MaxSensors | SelfWeight | MinTemp | MaxTemp | EnableTemp | RefDeviate | MainLoopInterval
    | SyncFlash | SyncInterval | InitNoheatPeriodMins | InitFixheatPeriodMins | InitFixheatTemp

  /** The configuration file that sets key `k` alone, to its value in `p`. */
  function OnlyKey(k: Key, p: Params): Conf
  {
    match k
    case ManualCalibOverride => NoConf.(manualCalibOverride := Some(p.manualCalibOverride))
    case DevVerb => NoConf.(devVerb := Some(p.devVerb))
    case DevVerbDeep => NoConf.(devVerbDeep := Some(p.devVerbDeep))
    case Verb => NoConf.(verb := Some(p.verb))
    case AvgHistLen => NoConf.(avgHistLen := Some(p.avgHistLen))
    case HistLen => NoConf.(histLen := Some(p.histLen))
    case MaxMsgAge => NoConf.(maxMsgAge := Some(p.maxMsgAge))
    case MaxSensors => NoConf.(maxSensors := Some(p.maxSensors))
    case SelfWeight => NoConf.(selfWeight := Some(p.selfWeight))
    case MinTemp => NoConf.(minTemp := Some(p.minTemp))
    case MaxTemp => NoConf.(maxTemp := Some(p.maxTemp))
    case EnableTemp => NoConf.(enableTemp := Some(p.enableTemp))
    case RefDeviate => NoConf.(refDeviate := Some(p.refDeviate))
    case MainLoopInterval => NoConf.(mainLoopInterval := Some(p.mainLoopInterval))
    case SyncFlash => NoConf.(syncFlash := Some(p.syncFlash))
    case SyncInterval => NoConf.(syncInterval := Some(p.syncInterval))
    case InitNoheatPeriodMins => NoConf.(initNoheatPeriodMins := Some(p.initNoheatPeriodMins))
    case InitFixheatPeriodMins => NoConf.(initFixheatPeriodMins := Some(p.initFixheatPeriodMins))
    case InitFixheatTemp => NoConf.(initFixheatTemp := Some(p.initFixheatTemp))
  }

  /** `d` with the parameter of key `k` replaced by its value in `p`. */
  function WithKey(d: Params, k: Key, p: Params): Params
  {
    match k
    case ManualCalibOverride => d.(manualCalibOverride := p.manualCalibOverride)
    case DevVerb => d.(devVerb := p.devVerb)
    case DevVerbDeep => d.(devVerbDeep := p.devVerbDeep)
    case Verb => d.(verb := p.verb)
    case AvgHistLen => d.(avgHistLen := p.avgHistLen)
    case HistLen => d.(histLen := p.histLen)
    case MaxMsgAge => d.(maxMsgAge := p.maxMsgAge)
    case MaxSensors => d.(maxSensors := p.maxSensors)
    case SelfWeight => d.(selfWeight := p.selfWeight)
    case MinTemp => d.(minTemp := p.minTemp)
    case MaxTemp => d.(maxTemp := p.maxTemp)
    case EnableTemp => d.(enableTemp := p.enableTemp)
    case RefDeviate => d.(refDeviate := p.refDeviate)
    case MainLoopInterval => d.(mainLoopInterval := p.mainLoopInterval)
    case SyncFlash => d.(syncFlash := p.syncFlash)
    case SyncInterval => d.(syncInterval := p.syncInterval)
    case InitNoheatPeriodMins => d.(initNoheatPeriodMins := p.initNoheatPeriodMins)
    case InitFixheatPeriodMins => d.(initFixheatPeriodMins := p.initFixheatPeriodMins)
    case InitFixheatTemp => d.(initFixheatTemp := p.initFixheatTemp)
  }

  /** Setting any one key touches that parameter only. */
  lemma ParseOneKey(defaults: Params, k: Key, p: Params)
    ensures ParseConf(defaults, OnlyKey(k, p)) == WithKey(defaults, k, p)
  {
    match k
    case ManualCalibOverride =>
    case DevVerb =>
    case DevVerbDeep =>
    case Verb =>
    case AvgHistLen =>
    case HistLen =>
    case MaxMsgAge =>
    case MaxSensors =>
    case SelfWeight =>
    case MinTemp =>
    case MaxTemp =>
    case EnableTemp =>
    case RefDeviate =>
    case MainLoopInterval =>
    case SyncFlash =>
    case SyncInterval =>
    case InitNoheatPeriodMins =>
    case InitFixheatPeriodMins =>
    case InitFixheatTemp =>
  }

  /** The derived-parameter step of `__init__`: a history buffer too short for
      the averaging window is lengthened to fit it. */
  function FitHistLen(p: Params): (q: Params)
    ensures q.histLen >= q.avgHistLen
    ensures q.avgHistLen == p.avgHistLen
    ensures p.histLen >= p.avgHistLen ==> q == p
    ensures p.histLen < p.avgHistLen ==> q == p.(histLen := p.avgHistLen)
  {
    if p.avgHistLen > p.histLen then p.(histLen := p.avgHistLen) else p
  }

  // ----------------------------------------------------------- write_logline

  /** The text `write_logline` writes: the fields joined by the delimiter, then
      the delimiter and the suffix if the suffix is not empty, then the line end. */
  function LogText(delim: char, fields: seq<string>, suffix: string, lineEnd: string): string
  {
    Join(fields, delim) + (if |suffix| > 0 then [delim] + suffix else "") + lineEnd
  }

  /** A log line reads back into its fields, and the suffix as one more field,
      when no field contains the delimiter. */
  lemma LogTextFields(delim: char, fields: seq<string>, suffix: string, lineEnd: string)
    requires |fields| >= 1
    requires forall k :: 0 <= k < |fields| ==> delim !in fields[k]
    requires delim !in suffix
    ensures var line := LogText(delim, fields, suffix, lineEnd);
      |line| >= |lineEnd| &&
      Split(line[..|line| - |lineEnd|], delim) == fields + (if |suffix| > 0 then [suffix] else [])
  {
    var line := LogText(delim, fields, suffix, lineEnd);
    var body := Join(fields, delim) + (if |suffix| > 0 then [delim] + suffix else "");
    assert line == body + lineEnd;
    assert line[..|line| - |lineEnd|] == body;
    var parts := fields + (if |suffix| > 0 then [suffix] else []);
    if |suffix| > 0 {
      JoinLast(parts, delim);
      assert parts[..|parts| - 1] == fields;
    } else {
      assert parts == fields;
    }
    assert Join(parts, delim) == body;
    SplitJoin(parts, delim);
  }

  /** With no fields (an unknown line type) but a suffix, the line starts with
      an empty field. */
  lemma LogTextWithoutFields(delim: char, suffix: string, lineEnd: string)
    requires |suffix| > 0
    ensures LogText(delim, [], suffix, lineEnd) == [delim] + suffix + lineEnd
  {
  }

  // ------------------------------------------------------ measure_ir_sensors

  /** The counting loop of `measure_ir_sensors`: over the zipped readings and
      calibration thresholds, the indices below 6 whose reading is strictly
      above its threshold. */
  method CountDetections(levels: seq<real>, calib: seq<real>) returns (count: nat)
    ensures count == |AboveUpTo(levels, calib, Min(6, Pairs(levels, calib)))|
    ensures count <= 6 && count <= Pairs(levels, calib)
  {
    count := 0;
    var i := 0;
    while i < Pairs(levels, calib)
      invariant 0 <= i <= Pairs(levels, calib)
      invariant count == |AboveUpTo(levels, calib, Min(6, i))|
    {
      if i < 6 {
        AboveUpToStep(levels, calib, i);
        if levels[i] > calib[i] {
          assert i !in AboveUpTo(levels, calib, i);
          count := count + 1;
        }
      }
      i := i + 1;
    }
    CountTruePrefix(levels, calib, Min(6, i));
  }

  /** `current_count = float(count / MAX_SENSORS)`; a zero `MAX_SENSORS` raises. */
  function DetectionShare(count: nat, maxSensors: real): (r: Result<real>)
    ensures r.Failure? <==> maxSensors == 0.0
    ensures r.Failure? ==> r.error == ZeroDivisionError
    ensures r.Success? ==> r.value * maxSensors == count as real
  {
    if maxSensors == 0.0 then Failure(ZeroDivisionError) else Success(count as real / maxSensors)
  }

  /** With at least six sensors configured, the share lies in `[0, 1]`. */
  lemma DetectionShareWithin(count: nat, maxSensors: real)
    requires count <= 6 && maxSensors >= 6.0
    ensures 0.0 <= DetectionShare(count, maxSensors).value <= 1.0
  {
    var r := count as real / maxSensors;
    assert r * maxSensors == count as real;
  }

  // --------------------------------------------------------- get_actual_temp

  /** The readings `get_actual_temp` believes: strictly between 2 and 50 degrees. */
  predicate PlausibleTemp(t: real)
  {
    2.0 < t < 50.0
  }

  /** The plausible readings, in order. */
  function Plausible(temps: seq<real>): (r: seq<real>)
    ensures |r| <= |temps|
    ensures forall i :: 0 <= i < |r| ==> PlausibleTemp(r[i])
    ensures forall t :: t in r <==> t in temps && PlausibleTemp(t)
  {
    if |temps| == 0 then []
    else
      var t := temps[|temps| - 1];
      assert temps == temps[..|temps| - 1] + [t];
      Plausible(temps[..|temps| - 1]) + (if PlausibleTemp(t) then [t] else [])
  }

  /** The CASU's temperature as `get_actual_temp` estimates it: the mean of
      the plausible readings, or -1 if there is none. */
  function ActualTemp(temps: seq<real>): (t: real)
    ensures t == -1.0 || PlausibleTemp(t)
  {
    var ok := Plausible(temps);
    if |ok| == 0 then -1.0
    else
      MeanStrictBounds(ok, 2.0, 50.0);
      Mean(ok)
  }

  /** A single plausible reading is the estimate itself. */
  lemma ActualTempOfOneReading(t: real)
    requires PlausibleTemp(t)
    ensures ActualTemp([t]) == t
  {
    assert [t][..0] == [];
    assert Plausible([t]) == [t];
    assert Sum([t]) == Sum([t][..0]) + t == t;
  }

  /** `get_actual_temp`, reading the sensors `temps`. */
  method GetActualTemp(temps: seq<real>) returns (t: real)
    ensures t == ActualTemp(temps)
    ensures t == -1.0 || PlausibleTemp(t)
  {
    var ok: seq<real> := [];
    var i := 0;
    while i < |temps|
      invariant 0 <= i <= |temps|
      invariant ok == Plausible(temps[..i])
    {
      assert temps[..i + 1][..i] == temps[..i];
      if PlausibleTemp(temps[i]) {
        ok := ok + [temps[i]];
      }
      i := i + 1;
    }
    assert temps[..i] == temps;
    if |ok| > 0 {
      MeanStrictBounds(ok, 2.0, 50.0);
      t := Mean(ok);
    } else {
      t := -1.0;
    }
  }

  // ------------------------------------------------------- recv_all_incoming

  /** The characters Python 2's `str.split()` and `str.strip()` treat as
      whitespace on a byte string (`str`), the type `read_message` gives the
      data in; on a `unicode` string they would also separate on `\x1c`-`\x1f`,
      `\x85`, `\xa0` and other Unicode spaces. */
  predicate IsSpace(c: char)
  {
    c == ' ' || c == '\t' || c == '\n' || c == '\r' || c == '\U{000B}' || c == '\U{000C}'
  }

  /** The word at the front of `s`: its characters up to the first whitespace. */
  function TakeWord(s: string): (w: string)
    ensures |w| <= |s| && w == s[..|w|]
    ensures forall c :: c in w ==> !IsSpace(c)
    ensures |w| == |s| || IsSpace(s[|w|])
  {
    if |s| == 0 || IsSpace(s[0]) then "" else [s[0]] + TakeWord(s[1..])
  }

  /** How many whitespace characters `s.strip()` removes from the front of `s`. */
  function LeadingSpace(s: string): (k: nat)
    ensures k <= |s|
    ensures forall j :: 0 <= j < k ==> IsSpace(s[j])
    ensures k < |s| ==> !IsSpace(s[k])
  {
    if |s| == 0 || !IsSpace(s[0]) then 0
    else
      var k := LeadingSpace(s[1..]);
      assert forall j :: 0 < j < k + 1 ==> s[j] == s[1..][j - 1];
      1 + k
  }

  /** `s.strip().split()[0]`, or `None` where that raises `IndexError`
      because `s` is all whitespace. Which word it is: `FirstWordAfterSpace`. */
  function FirstWord(s: string): (r: Option<string>)
    ensures r.None? <==> forall c :: c in s ==> IsSpace(c)
    ensures r.Some? ==> |r.value| > 0 && forall c :: c in r.value ==> !IsSpace(c)
  {
    if |s| == 0 then None
    else if IsSpace(s[0]) then
      assert forall c :: c in s ==> c == s[0] || c in s[1..];
      FirstWord(s[1..])
    else Some(TakeWord(s))
  }

  /** The first word is the word that starts at the first non-whitespace
      character, the front of `s.strip()`. */
  lemma {:induction false} FirstWordAfterSpace(s: string)
    ensures FirstWord(s).Some? <==> LeadingSpace(s) < |s|
    ensures FirstWord(s).Some? ==> FirstWord(s).value == TakeWord(s[LeadingSpace(s)..])
  {
    if |s| > 0 {
      if IsSpace(s[0]) {
        FirstWordAfterSpace(s[1..]);
        assert s[1..][LeadingSpace(s[1..])..] == s[LeadingSpace(s)..];
      } else {
        assert s[0..] == s;
      }
    }
  }

  /** Leading whitespace does not change the first word. */
  lemma FirstWordSkipsSpace(pad: string, s: string)
    requires forall c :: c in pad ==> IsSpace(c)
    ensures FirstWord(pad + s) == FirstWord(s)
  {
    if |pad| > 0 {
      assert (pad + s)[0] == pad[0] && pad[0] in pad;
      assert (pad + s)[1..] == pad[1..] + s;
      assert forall c :: c in pad[1..] ==> c in pad;
      assert FirstWord(pad + s) == FirstWord(pad[1..] + s);
      FirstWordSkipsSpace(pad[1..], s);
    } else {
      assert pad + s == s;
    }
  }

  /** One message as `read_message` returns it. */
  datatype Message = Message(sender: string, data: string)

  /** `float(msg['data'].strip().split()[0])`: `toFloat` stands for Python's
      `float()` on a word (`None` where it raises `ValueError`). */
  function ParseCount(data: string, toFloat: string -> Option<real>): (r: Result<real>)
    ensures r.Failure? ==> r.error == (if FirstWord(data).None? then IndexError else ValueError)
    ensures r.Success? <==> FirstWord(data).Some? && toFloat(FirstWord(data).value).Some?
  {
    match FirstWord(data)
    case None => Failure(IndexError)
    case Some(w) =>
      match toFloat(w)
      case None => Failure(ValueError)
      case Some(v) => Success(v)
  }

  /** The `k`-th `read_message()`: the queued messages in order, then nothing. */
  function ReadAt(inbox: seq<Option<Message>>, k: nat): Option<Message>
  {
    if k < |inbox| then inbox[k] else None
  }

  /** How many of the first `n` reads found the buffer empty. */
  function EmptyReads(inbox: seq<Option<Message>>, n: nat): nat
  {
    if n == 0 then 0 else EmptyReads(inbox, n - 1) + (if ReadAt(inbox, n - 1).None? then 1 else 0)
  }

  /** One turn of the reading loop: a message's count is parsed and stored
      under its sender; an empty read changes nothing. */
  function Absorb(m: map<string, real>, read: Option<Message>, toFloat: string -> Option<real>): Result<map<string, real>>
  {
    match read
    case None => Success(m)
    case Some(msg) =>
      var v := ParseCount(msg.data, toFloat);
      if v.Failure? then Failure(v.error) else Success(m[msg.sender := v.value])
  }

  /** The messages dict after the first `n` reads, or the first parse error. */
  function Collect(inbox: seq<Option<Message>>, n: nat, toFloat: string -> Option<real>): Result<map<string, real>>
  {
    if n == 0 then Success(map[])
    else
      var c := Collect(inbox, n - 1, toFloat);
      if c.Failure? then c else Absorb(c.value, ReadAt(inbox, n - 1), toFloat)
  }

  function MaxZero(i: int): nat
  {
    if i < 0 then 0 else i
  }

  /** `recv_all_incoming(retry_cnt)`: reads until the buffer has been found
      empty `retry_cnt + 1` times in all (the counter is never reset), keeping
      the last count from each sender; `consumed` is the number of reads made.
      A message whose data is not a number stops it with that exception. */
  method RecvAllIncoming(inbox: seq<Option<Message>>, retryCnt: int, toFloat: string -> Option<real>)
    returns (r: Result<map<string, real>>, consumed: nat)
    ensures consumed >= 1
    ensures r == Collect(inbox, consumed, toFloat)
    ensures r.Success? ==> (ReadAt(inbox, consumed - 1).None? &&
      EmptyReads(inbox, consumed - 1) == MaxZero(retryCnt) && EmptyReads(inbox, consumed) == MaxZero(retryCnt) + 1)
    ensures r.Failure? ==> (ReadAt(inbox, consumed - 1).Some? &&
      Collect(inbox, consumed - 1, toFloat).Success? && EmptyReads(inbox, consumed) <= MaxZero(retryCnt))
  {
    var msgs: map<string, real> := map[];
    var tryCnt := 0;
    var k := 0;
    while true
      invariant Collect(inbox, k, toFloat) == Success(msgs)
      invariant tryCnt == EmptyReads(inbox, k) <= MaxZero(retryCnt)
      decreases (if k < |inbox| then |inbox| - k else 0) + (MaxZero(retryCnt) + 1 - tryCnt)
    {
      var msg := ReadAt(inbox, k);
      assert Collect(inbox, k + 1, toFloat) == Absorb(msgs, msg, toFloat);
      k := k + 1;
      if msg.Some? {
        var v := ParseCount(msg.value.data, toFloat);
        if v.Failure? {
          return Failure(v.error), k;
        }
        msgs := msgs[msg.value.sender := v.value];
      } else {
        tryCnt := tryCnt + 1;
        if tryCnt > retryCnt {
          return Success(msgs), k;
        }
      }
    }
  }

  /** Read `j` is a message from `src`. */
  ghost predicate From(inbox: seq<Option<Message>>, j: nat, src: string)
  {
    ReadAt(inbox, j).Some? && ReadAt(inbox, j).value.sender == src
  }

  /** The collected dict holds exactly the senders read. */
  lemma {:induction false} CollectSenders(inbox: seq<Option<Message>>, n: nat, toFloat: string -> Option<real>, src: string)
    requires Collect(inbox, n, toFloat).Success?
    ensures src in Collect(inbox, n, toFloat).value <==> exists j: nat :: j < n && From(inbox, j, src)
  {
    if n > 0 {
      var c := Collect(inbox, n - 1, toFloat);
      assert c.Success?;
      CollectSenders(inbox, n - 1, toFloat, src);
      if From(inbox, n - 1, src) {
        assert src in Collect(inbox, n, toFloat).value;
      } else {
        assert src in Collect(inbox, n, toFloat).value <==> src in c.value;
        if exists j: nat :: j < n && From(inbox, j, src) {
          var j: nat :| j < n && From(inbox, j, src);
          assert j < n - 1;
        }
      }
    }
  }

  /** The count kept for a sender comes from its last message. */
  lemma {:induction false} CollectKeepsLast(inbox: seq<Option<Message>>, n: nat, toFloat: string -> Option<real>, src: string)
    returns (j: nat)
    requires Collect(inbox, n, toFloat).Success?
    requires src in Collect(inbox, n, toFloat).value
    ensures j < n && From(inbox, j, src)
    ensures ParseCount(ReadAt(inbox, j).value.data, toFloat).Success?
    ensures Collect(inbox, n, toFloat).value[src] == ParseCount(ReadAt(inbox, j).value.data, toFloat).value
    ensures forall j' :: j < j' < n ==> !From(inbox, j', src)
  {
    var c := Collect(inbox, n - 1, toFloat);
    assert c.Success?;
    if From(inbox, n - 1, src) {
      j := n - 1;
    } else {
      j := CollectKeepsLast(inbox, n - 1, toFloat, src);
    }
  }

  /** Within a queue of messages no read comes back empty. */
  lemma {:induction false} NoEmptyReadInQueue(inbox: seq<Option<Message>>, n: nat)
    requires n <= |inbox|
    requires forall j :: 0 <= j < |inbox| ==> inbox[j].Some?
    ensures EmptyReads(inbox, n) == 0
  {
    if n > 0 {
      NoEmptyReadInQueue(inbox, n - 1);
    }
  }

  /** Without retries, a queue of messages is read to its end and once more. */
  lemma RecvStopsAfterQueue(inbox: seq<Option<Message>>)
    requires forall j :: 0 <= j < |inbox| ==> inbox[j].Some?
    ensures EmptyReads(inbox, |inbox|) == MaxZero(0)
    ensures ReadAt(inbox, |inbox|).None? && EmptyReads(inbox, |inbox| + 1) == MaxZero(0) + 1
  {
    NoEmptyReadInQueue(inbox, |inbox|);
  }

  /** `recv_all_incoming()` without retries stops after read `n`: either that
      read was the first empty one and every message before it parsed, or it
      was the first message that fails to parse, before any empty read. */
  ghost predicate StopsAt(inbox: seq<Option<Message>>, n: nat, toFloat: string -> Option<real>)
  {
    n >= 1 &&
    ((Collect(inbox, n, toFloat).Success? && ReadAt(inbox, n - 1).None? && EmptyReads(inbox, n) == 1) ||
     (Collect(inbox, n, toFloat).Failure? && ReadAt(inbox, n - 1).Some? &&
      Collect(inbox, n - 1, toFloat).Success? && EmptyReads(inbox, n) == 0))
  }

  /** Once a read has raised, every longer run of reads has raised. */
  lemma {:induction false} CollectFailurePersists(inbox: seq<Option<Message>>, m: nat, n: nat, toFloat: string -> Option<real>)
    requires m <= n && Collect(inbox, m, toFloat).Failure?
    ensures Collect(inbox, n, toFloat).Failure?
    decreases n
  {
    if m < n {
      CollectFailurePersists(inbox, m, n - 1, toFloat);
    }
  }

  /** More reads never find fewer empty ones. */
  lemma {:induction false} EmptyReadsMonotone(inbox: seq<Option<Message>>, m: nat, n: nat)
    requires m <= n
    ensures EmptyReads(inbox, m) <= EmptyReads(inbox, n)
    decreases n
  {
    if m < n {
      EmptyReadsMonotone(inbox, m, n - 1);
    }
  }

  /** The queue alone decides where the reads stop: no earlier read is a
      stopping point, so `StopsAt` holds for one `n` at most. */
  lemma StopsAtFirst(inbox: seq<Option<Message>>, n: nat, toFloat: string -> Option<real>)
    requires StopsAt(inbox, n, toFloat)
    ensures forall m :: 1 <= m < n ==> !StopsAt(inbox, m, toFloat)
  {
    assert Collect(inbox, n - 1, toFloat).Success? && EmptyReads(inbox, n - 1) == 0;
    forall m | 1 <= m < n
      ensures !StopsAt(inbox, m, toFloat)
    {
      EmptyReadsMonotone(inbox, m, n - 1);
      assert EmptyReads(inbox, m) == 0;
      if Collect(inbox, m, toFloat).Failure? {
        CollectFailurePersists(inbox, m, n - 1, toFloat);
      }
    }
  }

  // ----------------------------------------------------- update_interactions

  /** One neighbour's entry in `most_recent_rx`. */
  datatype RxRecord = RxRecord(when: int, count: real, tomem: bool)

  /** The loop of `update_interactions` over the received messages: each
      sender already in the table gets its entry renewed with the cycle, the
      count and "not yet stored"; strangers and silent neighbours change nothing. */
  method RefreshAll(rx: map<string, RxRecord>, msgs: map<string, real>, ts: int) returns (r: map<string, RxRecord>)
    ensures forall k :: k in r <==> k in rx
    ensures forall k :: k in rx && k in msgs ==> r[k] == RxRecord(ts, msgs[k], false)
    ensures forall k :: k in rx && k !in msgs ==> r[k] == rx[k]
  {
    r := rx;
    var todo := msgs.Keys;
    while todo != {}
      invariant todo <= msgs.Keys
      invariant forall k :: k in r <==> k in rx
      invariant forall k :: k in rx && k in msgs && k !in todo ==> r[k] == RxRecord(ts, msgs[k], false)
      invariant forall k :: k in rx && (k !in msgs || k in todo) ==> r[k] == rx[k]
      decreases |todo|
    {
      var src :| src in todo;
      if src in r {
        r := r[src := RxRecord(ts, msgs[src], false)];
      }
      todo := todo - {src};
    }
  }

  // --------------------------------------------------------- update_averages

  /** A neighbour's count is due for its history: not stored yet and younger than `MAX_MSG_AGE`. */
  predicate Due(r: RxRecord, ts: int, maxAge: int)
  {
    !r.tomem && ts - r.when < maxAge
  }

  /** A just-received count is due, whenever `MAX_MSG_AGE` is positive. */
  lemma ReceivedIsDue(ts: int, count: real, maxAge: int)
    requires maxAge > 0
    ensures Due(RxRecord(ts, count, false), ts, maxAge)
  {
  }

  /** An entry after the neighbour loop of `update_averages`: marked as stored if it was due. */
  function Stored(r: RxRecord, ts: int, maxAge: int): (s: RxRecord)
    ensures s.when == r.when && s.count == r.count
    ensures s.tomem
      <==> r.tomem || ts - r.when < maxAge
  {
    if Due(r, ts, maxAge) then r.(tomem := true) else r
  }

  /** The neighbour loop of `update_averages`: the count of each due entry is
      pushed into that neighbour's history and the entry marked as stored. */
  method PushDueCounts(hist: map<string, seq<real>>, rx: map<string, RxRecord>, ts: int, maxAge: int)
    returns (hist': map<string, seq<real>>, rx': map<string, RxRecord>)
    requires forall k :: k in rx ==> k in hist
    requires forall k :: k in hist ==> |hist[k]| > 0
    ensures forall k :: k in hist' <==> k in hist
    ensures forall k :: k in hist && k in rx && Due(rx[k], ts, maxAge) ==> hist'[k] == Pushed(hist[k], rx[k].count)
    ensures forall k :: k in hist && !(k in rx && Due(rx[k], ts, maxAge)) ==> hist'[k] == hist[k]
    ensures forall k :: k in rx' <==> k in rx
    ensures forall k :: k in rx ==> rx'[k] == Stored(rx[k], ts, maxAge)
  {
    hist', rx' := hist, rx;
    var todo := rx.Keys;
    while todo != {}
      invariant todo <= rx.Keys
      invariant forall k :: k in hist' <==> k in hist
      invariant forall k :: k in rx' <==> k in rx
      invariant forall k :: k in hist && k in rx && k !in todo && Due(rx[k], ts, maxAge) ==> hist'[k] == Pushed(hist[k], rx[k].count)
      invariant forall k :: k in hist && !(k in rx && k !in todo && Due(rx[k], ts, maxAge)) ==> hist'[k] == hist[k]
      invariant forall k :: k in rx && k !in todo ==> rx'[k] == Stored(rx[k], ts, maxAge)
      invariant forall k :: k in rx && k in todo ==> rx'[k] == rx[k]
      decreases |todo|
    {
      var neigh :| neigh in todo;
      var data := rx'[neigh];
      if !data.tomem && ts - data.when < maxAge {
        hist' := hist'[neigh := Pushed(hist'[neigh], data.count)];
        rx' := rx'[neigh := data.(tomem := true)];
      }
      todo := todo - {neigh};
    }
  }

  /** A count is stored at most once: once the loop has run, the entry is not
      due at this cycle or any later one, until a new message renews it. */
  lemma StoredOnce(r: RxRecord, ts: int, later: int, maxAge: int)
    requires ts <= later
    ensures !Due(Stored(r, ts, maxAge), later, maxAge)
  {
  }

  /** The smoothing loop of `update_averages`: every history's average over its
      first `valid` entries; averages of other keys stay. */
  method SmoothAll(smoothed: map<string, real>, hist: map<string, seq<real>>, valid: nat)
    returns (r: map<string, real>)
    requires 0 < valid
    requires forall k :: k in hist ==> valid <= |hist[k]|
    ensures forall k :: k in r <==> k in smoothed || k in hist
    ensures forall k :: k in hist ==> r[k] == Mean(hist[k][..valid])
    ensures forall k :: k in smoothed && k !in hist ==> r[k] == smoothed[k]
  {
    r := smoothed;
    var todo := hist.Keys;
    while todo != {}
      invariant todo <= hist.Keys
      invariant forall k :: k in r <==> k in smoothed || (k in hist && k !in todo)
      invariant forall k :: k in hist && k !in todo ==> r[k] == Mean(hist[k][..valid])
      invariant forall k :: k in smoothed && (k !in hist || k in todo) ==> r[k] == smoothed[k]
      decreases |todo|
    {
      var neigh :| neigh in todo;
      r := r[neigh := Mean(hist[neigh][..valid])];
      todo := todo - {neigh};
    }
  }

  /** Averages of histories inside `[lo, hi]` stay inside `[lo, hi]`. */
  lemma SmoothWithin(hist: map<string, seq<real>>, valid: nat, lo: real, hi: real)
    requires 0 < valid
    requires forall k :: k in hist ==> valid <= |hist[k]|
    requires forall k, i :: k in hist && 0 <= i < |hist[k]| ==> lo <= hist[k][i] <= hi
    ensures forall k :: k in hist ==> lo <= Mean(hist[k][..valid]) <= hi
  {
    forall k | k in hist
      ensures lo <= Mean(hist[k][..valid]) <= hi
    {
      MeanBounds(hist[k][..valid], lo, hi);
    }
  }

  /** The weight of a source: `SELF_WEIGHT` for `self`, the edge weight otherwise. */
  function WeightOf(k: string, inMap: map<string, Interactions.InEdge>, selfWeight: real): real
    requires k == "self" || k in inMap
  {
    if k == "self" then selfWeight else inMap[k].w
  }

  /** The contribution loop of `update_averages`, filling an emptied dict:
      each source's weight times its average. */
  method ContribsAll(smoothed: map<string, real>, inMap: map<string, Interactions.InEdge>, selfWeight: real)
    returns (r: map<string, real>)
    requires forall k :: k in smoothed ==> k == "self" || k in inMap
    ensures forall k :: k in r <==> k in smoothed
    ensures forall k :: k in smoothed ==> r[k] == WeightOf(k, inMap, selfWeight) * smoothed[k]
  {
    r := map[];
    var todo := smoothed.Keys;
    while todo != {}
      invariant todo <= smoothed.Keys
      invariant forall k :: k in r <==> k in smoothed && k !in todo
      invariant forall k :: k in r ==> r[k] == WeightOf(k, inMap, selfWeight) * smoothed[k]
      decreases |todo|
    {
      var neigh :| neigh in todo;
      var w := if neigh == "self" then selfWeight else inMap[neigh].w;
      r := r[neigh := w * smoothed[neigh]];
      todo := todo - {neigh};
    }
  }

  /** A source's history after `update_averages`: its neighbour count pushed
      first if it was due, then, for `self`, the own count. */
  function HistAfter(k: string, h: seq<real>, rx: map<string, RxRecord>, ts: int, maxAge: int, ownCount: real): (r: seq<real>)
    requires |h| > 0
    ensures |r| == |h|
  {
    var h1 := if k in rx && Due(rx[k], ts, maxAge) then Pushed(h, rx[k].count) else h;
    if k == "self" then Pushed(h1, ownCount) else h1
  }

  /** What `update_averages` leaves in the dicts `hist'`, `rx'`, `sm` and `c`
      (`smoothed_bee_hist` and `state_contribs`) given the histories `hist`
      and records `rx` before it: every history is `HistAfter` its old self
      (due counts and, for `self`, the own count pushed), due records are
      marked stored, every average is the mean of the first `valid` entries
      of the new history, and every contribution is its weight times that
      average. */
  ghost predicate Averaged(hist: map<string, seq<real>>, rx: map<string, RxRecord>, ts: int, maxAge: int,
                           ownCount: real, valid: nat, inMap: map<string, Interactions.InEdge>, selfWeight: real,
                           hist': map<string, seq<real>>, rx': map<string, RxRecord>, sm: map<string, real>, c: map<string, real>)
  {
    forall k :: AveragedAt(k, hist, rx, ts, maxAge, ownCount, valid, inMap, selfWeight, hist', rx', sm, c)
  }

  /** `Averaged` for the source `k`. */
  ghost predicate AveragedAt(k: string, hist: map<string, seq<real>>, rx: map<string, RxRecord>, ts: int, maxAge: int,
                             ownCount: real, valid: nat, inMap: map<string, Interactions.InEdge>, selfWeight: real,
                             hist': map<string, seq<real>>, rx': map<string, RxRecord>, sm: map<string, real>, c: map<string, real>)
  {
    (k in hist && k in hist' && |hist[k]| > 0 ==> hist'[k] == HistAfter(k, hist[k], rx, ts, maxAge, ownCount)) &&
    (k in rx && k in rx' ==> rx'[k] == Stored(rx[k], ts, maxAge)) &&
    (k in hist' && k in sm && 0 < valid <= |hist'[k]| ==> sm[k] == Mean(hist'[k][..valid])) &&
    (k in sm && k in c && (k == "self" || k in inMap) ==> c[k] == WeightOf(k, inMap, selfWeight) * sm[k])
  }

  /** The records `rx'` after `update_interactions` renews the records `rx`
      with the counts `msgs` received at cycle `ts`: a fresh, unstored record
      for every known sender, the others as they were. Senders this CASU has
      no in-edge from are ignored. */
  ghost predicate Refreshed(rx: map<string, RxRecord>, msgs: map<string, real>, ts: int, rx': map<string, RxRecord>)
  {
    (forall k :: k in rx' <==> k in rx) &&
    (forall k :: k in rx && k in msgs ==> rx'[k] == RxRecord(ts, msgs[k], false)) &&
    (forall k :: k in rx && k !in msgs ==> rx'[k] == rx[k])
  }

  /** The pushes of `update_averages`: due neighbour counts, then the own count. */
  method PushAll(hist: map<string, seq<real>>, rx: map<string, RxRecord>, ts: int, maxAge: int, ownCount: real)
    returns (hist': map<string, seq<real>>, rx': map<string, RxRecord>)
    requires "self" in hist
    requires forall k :: k in rx ==> k in hist
    requires forall k :: k in hist ==> |hist[k]| > 0
    ensures forall k :: k in hist' <==> k in hist
    ensures forall k :: k in hist ==> hist'[k] == HistAfter(k, hist[k], rx, ts, maxAge, ownCount)
    ensures forall k :: k in rx' <==> k in rx
    ensures forall k :: k in rx ==> rx'[k] == Stored(rx[k], ts, maxAge)
  {
    var h;
    h, rx' := PushDueCounts(hist, rx, ts, maxAge);
    hist' := h["self" := Pushed(h["self"], ownCount)];
  }

  /** The body of `update_averages` on the dicts themselves: due neighbour
      counts and the own count pushed, every history averaged over its first
      `valid` entries, every average weighed. */
  method AverageAll(hist: map<string, seq<real>>, rx: map<string, RxRecord>, smoothed: map<string, real>,
                    ts: int, maxAge: int, ownCount: real, valid: nat,
                    inMap: map<string, Interactions.InEdge>, selfWeight: real,
                    ghost c0: map<string, real>, ghost histLen: nat)
    returns (hist': map<string, seq<real>>, rx': map<string, RxRecord>, sm: map<string, real>, c: map<string, real>)
    requires Consistent(inMap, rx, hist, smoothed, c0, histLen) && 0 < valid <= histLen
    ensures Consistent(inMap, rx', hist', sm, c, histLen)
    ensures Averaged(hist, rx, ts, maxAge, ownCount, valid, inMap, selfWeight, hist', rx', sm, c)
  {
    hist', rx' := PushAll(hist, rx, ts, maxAge, ownCount);
    sm := SmoothAll(smoothed, hist', valid);
    c := ContribsAll(sm, inMap, selfWeight);
    forall k
      ensures AveragedAt(k, hist, rx, ts, maxAge, ownCount, valid, inMap, selfWeight, hist', rx', sm, c)
    {
      if k in hist {
        assert hist'[k] == HistAfter(k, hist[k], rx, ts, maxAge, ownCount);
        assert sm[k] == Mean(hist'[k][..valid]);
        assert c[k] == WeightOf(k, inMap, selfWeight) * sm[k];
      }
    }
  }

  /** The dicts of an `Enhancer` agree on their sources: a record per
      neighbour it hears from, a history, an average and a contribution for
      it and for `self`, every history of the configured length. */
  ghost predicate Consistent(inMap: map<string, Interactions.InEdge>, rx: map<string, RxRecord>,
                             hist: map<string, seq<real>>, sm: map<string, real>, c: map<string, real>, histLen: nat)
  {
    (forall k :: k in rx <==> k in inMap) &&
    (forall k :: k in hist <==> k == "self" || k in inMap) &&
    (forall k :: k in sm <==> k == "self" || k in inMap) &&
    (forall k :: k in c <==> k == "self" || k in inMap) &&
    (forall k :: k in hist ==> |hist[k]| == histLen)
  }


  // ---------------------------------------------------------- update_outputs

  /** Some key of a non-empty dict. */
  ghost function Pick(m: map<string, real>): string
    requires m.Keys != {}
  {
    var k :| k in m.Keys; k
  }

  /** The sum of a dict's values; Python's iteration order does not matter,
      as `SumOverAnyKey` shows. */
  ghost function SumOver(m: map<string, real>): real
    decreases |m|
  {
    if m.Keys == {} then 0.0
    else
      var k := Pick(m);
      m[k] + SumOver(m - {k})
  }

  /** Any key may be summed first. */
  lemma SumOverAnyKey(m: map<string, real>, k: string)
    requires k in m
    ensures SumOver(m) == m[k] + SumOver(m - {k})
    decreases |m|
  {
    var j := Pick(m);
    if j != k {
      SumOverAnyKey(m - {j}, k);
      SumOverAnyKey(m - {k}, j);
      assert m - {j} - {k} == m - {k} - {j};
    }
  }

  /** The accumulation loop of `update_outputs`, in whatever order the dict yields its keys. */
  method SumValues(m: map<string, real>) returns (total: real)
    ensures total == SumOver(m)
  {
    total := 0.0;
    var rest := m;
    while rest.Keys != {}
      invariant total + SumOver(rest) == SumOver(m)
      decreases |rest|
    {
      var k :| k in rest.Keys;
      SumOverAnyKey(rest, k);
      total := total + rest[k];
      rest := rest - {k};
    }
  }

  /** A dict whose values are all zero sums to zero. */
  lemma {:induction false} SumOverZero(m: map<string, real>)
    requires forall k :: k in m ==> m[k] == 0.0
    ensures SumOver(m) == 0.0
    decreases |m|
  {
    if m.Keys != {} {
      SumOverZero(m - {Pick(m)});
    }
  }

  /** The three controller states, numbered as in the source. */
  datatype Mode = FixedTemp | InitNoheat | HeatPropto
  {
    function Code(): int
    {
      match this
      case FixedTemp => 1
      case InitNoheat => 2
      case HeatPropto => 3
    }
  }

  /** The state for `elap` seconds since start: fixed heating while the fixed
      period lasts, then heating in proportion once the no-heat period is over,
      not heating in between. */
  function ModeFor(elap: real, fixMins: real, noheatMins: real): Mode
  {
    if elap < fixMins * 60.0 then FixedTemp
    else if elap > noheatMins * 60.0 then HeatPropto
    else InitNoheat
  }

  /** The state never goes back as time passes: its number does not decrease. */
  lemma ModeNeverGoesBack(e1: real, e2: real, fixMins: real, noheatMins: real)
    requires e1 <= e2
    ensures ModeFor(e1, fixMins, noheatMins).Code() <= ModeFor(e2, fixMins, noheatMins).Code()
  {
  }

  /** With both periods at their default of zero, the controller heats as soon as time has passed. */
  lemma DefaultPeriodsHeatAtOnce(elap: real)
    requires elap > 0.0
    ensures ModeFor(elap, Defaults.initFixheatPeriodMins, Defaults.initNoheatPeriodMins) == HeatPropto
  {
  }

  /** The heat rule of `update_outputs`: the summed activation clipped to
      `[0, 1]`, the bonus `T_RANGE` times that, and the setpoint `MIN_TEMP`
      plus the bonus, which stays in the temperature range. */
  function HeatSetpoint(minTemp: real, tRange: real, level: real): (r: (real, real, real))
    ensures r.0 == Clip(level, 0.0, 1.0) && 0.0 <= r.0 <= 1.0
    ensures r.1 == tRange * r.0 && r.2 == minTemp + r.1
    ensures 0.0 <= tRange ==> minTemp <= r.2 <= minTemp + tRange
  {
    Median3IsClip(0.0, level, 1.0);
    var a := Median3(0.0, level, 1.0);
    assert 0.0 <= tRange ==> 0.0 <= tRange * a <= tRange * 1.0;
    (a, tRange * a, minTemp + tRange * a)
  }

  /** No activation means the minimum temperature, full activation the maximum. */
  lemma HeatSetpointSaturates(minTemp: real, maxTemp: real, level: real)
    ensures level <= 0.0 ==> HeatSetpoint(minTemp, maxTemp - minTemp, level).2 == minTemp
    ensures level >= 1.0 ==> HeatSetpoint(minTemp, maxTemp - minTemp, level).2 == maxTemp
  {
  }

  /** More activation never lowers the setpoint. */
  lemma HeatSetpointMonotone(minTemp: real, tRange: real, l1: real, l2: real)
    requires 0.0 <= tRange && l1 <= l2
    ensures HeatSetpoint(minTemp, tRange, l1).2 <= HeatSetpoint(minTemp, tRange, l2).2
  {
    ClipMonotone(l1, l2, 0.0, 1.0);
    var a1, a2 := Clip(l1, 0.0, 1.0), Clip(l2, 0.0, 1.0);
    var d := a2 - a1;
    assert 0.0 <= d;
    assert 0.0 <= tRange * d;
    assert tRange * a2 == tRange * a1 + tRange * d;
  }

  function Abs(x: real): real
  {
    if x < 0.0 then -x else x
  }

  /** `update_temp_wrapper`'s hysteresis: a new request is due only when the
      setpoint has moved more than `REF_DEVIATE` from the last one requested. */
  predicate RequestDue(current: real, prev: real, refDeviate: real)
  {
    Abs(current - prev) > refDeviate
  }

  /** The request made when one is due: standby if the CASU is already within
      half a degree of the setpoint, otherwise the setpoint itself. */
  function TempCommand(current: real, actual: real): (c: Command)
    ensures c == TempStandby <==> Abs(actual - current) <= 0.5
    ensures c != TempStandby ==> c == SetTemp(current)
  {
    if Abs(actual - current) <= 0.5 then TempStandby else SetTemp(current)
  }

  /** Once a request has been made, no other is due until the setpoint moves
      (a non-negative `REF_DEVIATE` assumed). */
  lemma RequestSettles(current: real, refDeviate: real)
    requires 0.0 <= refDeviate
    ensures !RequestDue(current, current, refDeviate)
  {
  }

  /** `set_fixed_temp` acts unless the peltier is already on at the target. */
  predicate FixedRequestDue(target: real, tref: real, on: bool)
  {
    !(tref == target && on)
  }

  /** What the controller remembers of its heater. */
  datatype Heater = Heater(currentTemp: real, prevTemp: real, activePeltier: bool)

  /** `set_fixed_temp(target)` with the CASU reporting setpoint `tref` and
      state `on`: the new heater memory and the commands sent. */
  function FixedTempStep(h: Heater, target: real, tref: real, on: bool): (r: (Heater, seq<Command>))
    ensures !FixedRequestDue(target, tref, on) ==> r == (h, [])
    ensures FixedRequestDue(target, tref, on) ==> r.0 == Heater(target, target, true) && r.1 == [SetTemp(target)]
  {
    if FixedRequestDue(target, tref, on) then (Heater(target, target, true), [SetTemp(target)]) else (h, [])
  }

  /** `update_temp_wrapper` with the CASU's temperature estimated as `actual`. */
  function TempWrapperStep(h: Heater, refDeviate: real, actual: real): (r: (Heater, seq<Command>))
    ensures r.0.currentTemp == h.currentTemp
    ensures !RequestDue(h.currentTemp, h.prevTemp, refDeviate) ==> r == (h, [])
    ensures RequestDue(h.currentTemp, h.prevTemp, refDeviate) ==>
      r.1 == [TempCommand(h.currentTemp, actual)] && r.0.prevTemp == h.currentTemp &&
      r.0.activePeltier == (TempCommand(h.currentTemp, actual) != TempStandby)
  {
    if RequestDue(h.currentTemp, h.prevTemp, refDeviate) then
      var c := TempCommand(h.currentTemp, actual);
      (Heater(h.currentTemp, h.currentTemp, c != TempStandby), [c])
    else (h, [])
  }

  /** The hysteresis settles: right after a request, the wrapper does nothing
      more until the setpoint moves (for a non-negative `REF_DEVIATE`). */
  lemma TempWrapperSettles(h: Heater, refDeviate: real, actual: real, actual': real)
    requires 0.0 <= refDeviate
    ensures var (h1, _) := TempWrapperStep(h, refDeviate, actual);
      TempWrapperStep(h1, refDeviate, actual') == (h1, [])
  {
  }

  /** Once the CASU reports the fixed target as its active setpoint, asserting
      it again does nothing. */
  lemma FixedTempSettles(h: Heater, target: real, tref: real, on: bool)
    ensures var (h1, _) := FixedTempStep(h, target, tref, on);
      FixedTempStep(h1, target, target, true) == (h1, [])
  {
  }

  /** The mode-dependent part of `update_outputs`, for heater memory `h` whose
      `currentTemp` already holds the proportional setpoint: in the fixed-heat
      period the fixed temperature is asserted, in the main period the red
      LED shows the activation and the wrapper requests the setpoint, in the
      no-heat period the LEDs are dark grey. Heating commands are sent only
      when `ENABLE_TEMP` is set. */
  function OutputStep(h: Heater, mode: Mode, activation: real, enableTemp: bool, fixTemp: real,
                      refDeviate: real, tref: real, on: bool, actual: real): (r: (Heater, seq<Command>))
    ensures mode == InitNoheat ==> r == (h, [Led(Some(0.2), Some(0.2), Some(0.2))])
    ensures mode == HeatPropto ==> (|r.1| >= 1 && r.1[0] == Led(Some(activation), Some(0.0), Some(0.0)) &&
                                    r.0.currentTemp == h.currentTemp)
    ensures mode != HeatPropto ==> |r.1| <= 1
    ensures !enableTemp ==> r.0 == h
    ensures r.0.currentTemp == h.currentTemp || (mode == FixedTemp && r.0.currentTemp == fixTemp)
  {
    match mode
    case FixedTemp => if enableTemp then FixedTempStep(h, fixTemp, tref, on) else (h, [])
    case HeatPropto =>
      var (h', sent) := if enableTemp then TempWrapperStep(h, refDeviate, actual) else (h, []);
      (h', [Led(Some(activation), Some(0.0), Some(0.0))] + sent)
    case InitNoheat => (h, [Led(Some(0.2), Some(0.2), Some(0.2))])
  }

  /** `OutputStep` in fixed-heat mode; it only serves the proof of `DriveOutputs`. */
  lemma OutputStepFixed(h: Heater, activation: real, enableTemp: bool, fixTemp: real,
                        refDeviate: real, tref: real, on: bool, actual: real)
    ensures OutputStep(h, FixedTemp, activation, enableTemp, fixTemp, refDeviate, tref, on, actual) ==
            (if enableTemp then FixedTempStep(h, fixTemp, tref, on) else (h, []))
  {
  }

  /** `OutputStep` in proportional-heat mode; it only serves the proof of `DriveOutputs`. */
  lemma OutputStepPropto(h: Heater, activation: real, enableTemp: bool, fixTemp: real,
                         refDeviate: real, tref: real, on: bool, actual: real)
    ensures var r := OutputStep(h, HeatPropto, activation, enableTemp, fixTemp, refDeviate, tref, on, actual);
            var w := TempWrapperStep(h, refDeviate, actual);
            (enableTemp ==> r == (w.0, [Led(Some(activation), Some(0.0), Some(0.0))] + w.1)) &&
            (!enableTemp ==> r == (h, [Led(Some(activation), Some(0.0), Some(0.0))]))
  {
    var led := Led(Some(activation), Some(0.0), Some(0.0));
    assert [led] + [] == [led];
  }

  /** What the mode branch sends to the heater: in the fixed-heat period only
      the fixed temperature, in the main period after the LED at most the one
      request `TempCommand` makes for the setpoint, and without `ENABLE_TEMP`
      nothing but LED colours. */
  lemma OutputStepCommands(h: Heater, mode: Mode, activation: real, enableTemp: bool, fixTemp: real,
                           refDeviate: real, tref: real, on: bool, actual: real)
    ensures var r := OutputStep(h, mode, activation, enableTemp, fixTemp, refDeviate, tref, on, actual);
            (mode == FixedTemp ==> forall i :: 0 <= i < |r.1| ==> r.1[i] == SetTemp(fixTemp)) &&
            (mode == HeatPropto && enableTemp ==>
               r.1[1..] == (if RequestDue(h.currentTemp, h.prevTemp, refDeviate)
                            then [TempCommand(h.currentTemp, actual)] else [])) &&
            (!enableTemp ==> forall i :: 0 <= i < |r.1| ==> r.1[i].Led?)
  {
    var r := OutputStep(h, mode, activation, enableTemp, fixTemp, refDeviate, tref, on, actual);
    if mode == HeatPropto {
      var led := Led(Some(activation), Some(0.0), Some(0.0));
      var sent := if enableTemp then TempWrapperStep(h, refDeviate, actual).1 else [];
      assert r.1 == [led] + sent;
      assert r.1[1..] == sent;
    }
  }

  /** `sends` is one `SendValue(label, value)` per key of `outMap`, in the
      duplicate-free key order `order`. */
  ghost predicate SentAlongAll(sends: seq<Command>, order: seq<string>, outMap: map<string, Option<string>>, value: real)
  {
    |order| == |sends| && |order| == |outMap| &&
    (forall k :: k in order <==> k in outMap) &&
    (forall i, j :: 0 <= i < j < |order| ==> order[i] != order[j]) &&
    (forall i :: 0 <= i < |sends| ==> order[i] in outMap && sends[i] == SendValue(outMap[order[i]], value))
  }

  /** A duplicate-free listing of a dict's keys is as long as the dict. */
  lemma {:induction false} DistinctKeysCoverMap(order: seq<string>, m: map<string, Option<string>>)
    requires forall k :: k in order <==> k in m
    requires forall i, j :: 0 <= i < j < |order| ==> order[i] != order[j]
    ensures |order| == |m|
    decreases |order|
  {
    if |order| == 0 {
      assert m.Keys == {};
    } else {
      var k := order[|order| - 1];
      DropLastKey(order, m);
      DistinctKeysCoverMap(order[..|order| - 1], m - {k});
      assert (m - {k}).Keys == m.Keys - {k};
    }
  }

  /** Dropping the last key of such a listing lists the dict without that key. */
  lemma DropLastKey(order: seq<string>, m: map<string, Option<string>>)
    requires |order| > 0
    requires forall k :: k in order <==> k in m
    requires forall i, j :: 0 <= i < j < |order| ==> order[i] != order[j]
    ensures var rest := order[..|order| - 1];
      (forall x :: x in rest <==> x in m - {order[|order| - 1]}) &&
      (forall i, j :: 0 <= i < j < |rest| ==> rest[i] != rest[j])
  {
    var last := |order| - 1;
    var rest := order[..last];
    forall x
      ensures x in rest <==> x in m - {order[last]}
    {
      if x in rest {
        var i :| 0 <= i < |rest| && rest[i] == x;
        assert order[i] == x && i < last;
      }
      if x in m - {order[last]} {
        assert x in order;
        var i :| 0 <= i < |order| && order[i] == x;
        assert i != last;
        assert rest[i] == x;
      }
    }
  }

  /** The loop of `update_info` that sends the own smoothed count once along
      every outgoing link, to the link's label, in the dict's order `order`. */
  method SendToAll(outMap: map<string, Option<string>>, value: real) returns (sends: seq<Command>, ghost order: seq<string>)
    ensures SentAlongAll(sends, order, outMap, value)
  {
    sends, order := [], [];
    var todo := outMap.Keys;
    while todo != {}
      invariant todo <= outMap.Keys
      invariant |order| == |sends|
      invariant forall k :: k in order <==> k in outMap && k !in todo
      invariant forall i, j :: 0 <= i < j < |order| ==> order[i] != order[j]
      invariant forall i :: 0 <= i < |sends| ==> order[i] in outMap && sends[i] == SendValue(outMap[order[i]], value)
      decreases |todo|
    {
      var physDest :| physDest in todo;
      sends := sends + [SendValue(outMap[physDest], value)];
      order := order + [physDest];
      todo := todo - {physDest};
    }
    DistinctKeysCoverMap(order, outMap);
  }

}
