/** The arithmetic of the ASSISI visualizer's `paintEvent` and `tempToColor`:
    the temperature-to-hue map, the IR-reading sector margin and the pie
    angles, and the `casu_data` map that painting indexes. Qt drawing calls
    are not modelled; a paint produces the numbers it would hand to them. */
module Visualizer {
  import opened ClipTemplate

  // ------------------------------------------------------------ conversions

  /** C++'s conversion of a `double` to `int`: truncation toward zero. */
  function Trunc(x: real): (r: int)
    ensures 0.0 <= x ==> r as real <= x < r as real + 1.0
    ensures x < 0.0 ==> r as real - 1.0 < x <= r as real
  {
    if x >= 0.0 then x.Floor else -((-x).Floor)
  }

  /** Truncation is non-decreasing. */
  lemma TruncMonotone(x: real, y: real)
    requires x <= y
    ensures Trunc(x) <= Trunc(y)
  {
    if x >= 0.0 {
      assert Trunc(x) as real <= x <= y < Trunc(y) as real + 1.0;
    } else if y < 0.0 {
      assert Trunc(x) as real - 1.0 < x <= y <= Trunc(y) as real;
    } else {
      assert Trunc(x) <= 0 <= Trunc(y);
    }
  }

  /** On a whole number truncation is the identity. */
  lemma TruncInt(n: int)
    ensures Trunc(n as real) == n
  {
  }

  // ------------------------------------------------------------ tempToColor

  const TempMin: real := 24.0
  const TempMax: real := 40.0
  const HueMin: real := 240.0
  const HueMax: real := 380.0

  /** The hue `tempToColor` hands to `setHsv`: the temperature clipped to
      [24, 40], mapped linearly onto [240, 380] (slope 140/16 = 8.75) and
      truncated to an `int`. */
  function TempToHue(temp: real): (hue: int)
    ensures 240 <= hue <= 380
    ensures temp <= TempMin ==> hue == 240
    ensures temp >= TempMax ==> hue == 380
    ensures var t := Clip(temp, TempMin, TempMax);
            hue as real <= 8.75 * (t - TempMin) + HueMin < hue as real + 1.0
  {
    var t := Clip(temp, TempMin, TempMax);
    var k := (HueMax - HueMin) / (TempMax - TempMin);
    assert k == 8.75;
    TruncInt(240);
    TruncInt(380);
    TruncMonotone(HueMin, k * (t - TempMin) + HueMin);
    TruncMonotone(k * (t - TempMin) + HueMin, HueMax);
    Trunc(k * (t - TempMin) + HueMin)
  }

  /** A warmer CASU never shows a lower hue. */
  lemma TempToHueMonotone(t1: real, t2: real)
    requires t1 <= t2
    ensures TempToHue(t1) <= TempToHue(t2)
  {
    ClipMonotone(t1, t2, TempMin, TempMax);
    var c1 := Clip(t1, TempMin, TempMax);
    var c2 := Clip(t2, TempMin, TempMax);
    TruncMonotone(8.75 * (c1 - TempMin) + HueMin, 8.75 * (c2 - TempMin) + HueMin);
  }

  /** Each degree of warming moves the hue by 8.75 (up to truncation): every
      fourth degree in [24, 40], where 8.75 times the step is whole, has the
      hue of the exact linear map. */
  lemma TempToHueAtEvenDegrees(d: nat)
    requires d <= 16 && d % 4 == 0
    ensures TempToHue(TempMin + d as real) == 240 + 35 * (d / 4)
  {
    var t := TempMin + d as real;
    assert Clip(t, TempMin, TempMax) == t;
    assert 8.75 * (t - TempMin) + HueMin == (240 + 35 * (d / 4)) as real;
    TruncInt(240 + 35 * (d / 4));
  }

  // ------------------------------------------------------------ IR sectors

  /** Height of each heating area: the 100-pixel CASU square with 100 pixels
      added on every side. */
  const HeatingAreaHeight: int := 300

  /** The margin removed from every side of the heating area to draw one IR
      reading: half the height, less 0.35 of the height per unit of reading,
      truncated to an `int`. */
  function Margin(h: int, ir: real): (m: int)
  {
    Trunc(0.5 * h as real - 0.5 * h as real * 0.5 * ir * 0.7)
  }

  /** A reading of 0 removes half the height from each side, so nothing of the
      reading is visible. */
  lemma MarginAtZero(h: nat)
    ensures Margin(h, 0.0) == h / 2
  {
    assert 0.5 * h as real - 0.5 * h as real * 0.5 * 0.0 * 0.7 == 0.5 * h as real;
  }

  /** The full reading of 2 removes 0.15 of the height from each side (0.3 of
      it in all). */
  lemma MarginAtTwo(h: nat)
    ensures Margin(h, 2.0) as real <= 0.15 * h as real < Margin(h, 2.0) as real + 1.0
  {
    assert 0.5 * h as real - 0.5 * h as real * 0.5 * 2.0 * 0.7 == 0.15 * h as real;
  }

  /** The stronger the reading, the smaller the margin, so the larger the pie. */
  lemma MarginAntitone(h: nat, ir1: real, ir2: real)
    requires ir1 <= ir2
    ensures Margin(h, ir2) <= Margin(h, ir1)
  {
    var x1 := 0.5 * h as real - 0.5 * h as real * 0.5 * ir1 * 0.7;
    var x2 := 0.5 * h as real - 0.5 * h as real * 0.5 * ir2 * 0.7;
    assert x2 - x1 == 0.5 * h as real * 0.5 * 0.7 * (ir1 - ir2);
    assert 0.5 * h as real * 0.5 * 0.7 * (ir1 - ir2) <= 0.0 by {
      assert 0.5 * h as real * 0.5 * 0.7 >= 0.0;
    }
    TruncMonotone(x2, x1);
  }

  /** For a reading in [0, 2] the margin keeps the pie inside the heating area:
      it is not negative and removes at most the whole height. */
  lemma MarginInArea(h: nat, ir: real)
    requires 0.0 <= ir <= 2.0
    ensures 0 <= Margin(h, ir) && 2 * Margin(h, ir) <= h
  {
    MarginAntitone(h, ir, 2.0);
    MarginAntitone(h, 0.0, ir);
    MarginAtZero(h);
    MarginAtTwo(h);
  }

  /** The angular width in degrees of each of `n` sectors: a full turn shared
      out with 2 degrees left between neighbours. */
  function FieldOfView(n: nat): (fov: real)
    requires n >= 1
    ensures fov * n as real == 360.0 - 2.0 * n as real
  {
    360.0 / n as real - 2.0
  }

  /** The start angle `drawPie` receives for sector `i`, in sixteenths of a
      degree: the sector is centred on `60 * i` degrees. */
  function SectorStart(i: nat, fov: real): (a: int)
  {
    Trunc((60.0 * i as real - fov / 2.0) * 16.0)
  }

  /** The span angle `drawPie` receives, in sixteenths of a degree. */
  function SectorSpan(fov: real): (a: int)
  {
    Trunc(fov * 16.0)
  }

  /** One IR reading as drawn: the margin of its pie, the pie's start and span
      angles, and whether a bee is drawn beside it (a reading above 0). */
  datatype Pie = Pie(margin: int, start: int, span: int, bee: bool)

  /** Sector `i` of `n`, for reading `ir`, in a heating area of height `h`. */
  function Sector(h: int, n: nat, i: nat, ir: real): Pie
    requires n >= 1
  {
    var fov := FieldOfView(n);
    Pie(Margin(h, ir), SectorStart(i, fov), SectorSpan(fov), ir > 0.0)
  }

  /** Every reading of a CASU as drawn, in order. */
  function Sectors(h: int, ir: seq<real>): seq<Pie>
  {
    seq(|ir|, i requires 0 <= i < |ir| => Sector(h, |ir|, i, ir[i]))
  }

  /** With the CASU's six sensors each sector spans 58 degrees and is centred
      on a multiple of 60 degrees; neighbours, including the last and the
      first across the full turn, are 2 degrees (32 sixteenths) apart. */
  lemma SixSectorsTileTheCircle(h: int, ir: seq<real>)
    requires |ir| == 6
    ensures forall i :: 0 <= i < 6 ==> Sectors(h, ir)[i].start == 960 * i - 464 && Sectors(h, ir)[i].span == 928
    ensures forall i :: 0 <= i < 5 ==>
              Sectors(h, ir)[i + 1].start - (Sectors(h, ir)[i].start + Sectors(h, ir)[i].span) == 32
    ensures Sectors(h, ir)[0].start + 360 * 16 - (Sectors(h, ir)[5].start + Sectors(h, ir)[5].span) == 32
  {
    assert FieldOfView(6) == 58.0;
    forall i: nat | i < 6
      ensures Sectors(h, ir)[i].start == 960 * i - 464 && Sectors(h, ir)[i].span == 928
    {
      assert (60.0 * i as real - 58.0 / 2.0) * 16.0 == (960 * i - 464) as real;
      TruncInt(960 * i - 464);
      TruncInt(928);
    }
  }

  /** The loop over one CASU's readings in `paintEvent`: each reading yields
      the pie drawn for it. */
  method DrawReadings(h: int, ir: seq<real>) returns (pies: seq<Pie>)
    ensures pies == Sectors(h, ir)
  {
    var n := |ir|;
    pies := [];
    var i := 0;
    while i < n
      invariant 0 <= i <= n
      invariant pies == Sectors(h, ir)[..i]
    {
      pies := pies + [Sector(h, n, i, ir[i])];
      i := i + 1;
    }
  }

  // ------------------------------------------------------------ the CASU map

  /** What the subscriber stores per CASU: its temperature, its reference
      temperature and its IR readings and thresholds. */
  datatype CasuData = CasuData(temp: real, tempRef: real, irRanges: seq<real>, irThresholds: seq<real>)

  const TopCasu: string := "casu-001"
  const BottomCasu: string := "casu-002"

  /** The subscriber's `casu_data` map. `defaultData` is what the default
      `CasuData` constructor yields; its body is not part of this model. */
  class Subscriber {
    var casuData: map<string, CasuData>
    const defaultData: CasuData

    constructor(defaultData: CasuData)
      ensures this.defaultData == defaultData && casuData == map[]
    {
      this.defaultData := defaultData;
      casuData := map[];
    }

    /** `casu_data[key]` through `std::map::operator[]`: a missing key is
        inserted with the default value first. */
    method Index(key: string) returns (d: CasuData)
      modifies this`casuData
      ensures casuData == Inserted(old(casuData), key, defaultData)
      ensures d == casuData[key]
    {
      if key !in casuData {
        casuData := casuData[key := defaultData];
      }
      d := casuData[key];
    }
  }

  /** `m` after `m[key]` has been evaluated by `operator[]`. */
  function Inserted(m: map<string, CasuData>, key: string, default: CasuData): (r: map<string, CasuData>)
    ensures r.Keys == m.Keys + {key}
    ensures forall k :: k in m ==> r[k] == m[k]
    ensures key !in m ==> r[key] == default
  {
    if key in m then m else m[key := default]
  }

  /** Inserting a key that is present already changes nothing. */
  lemma InsertedIdempotent(m: map<string, CasuData>, key: string, default: CasuData)
    ensures Inserted(Inserted(m, key, default), key, default) == Inserted(m, key, default)
  {
  }

  /** What one paint shows: the hue of each heating area and the pies of each
      CASU's readings. */
  datatype Frame = Frame(topHue: int, bottomHue: int, topPies: seq<Pie>, bottomPies: seq<Pie>)

  /** The frame painted from a map that holds both CASUs. */
  function Render(m: map<string, CasuData>): Frame
    requires TopCasu in m && BottomCasu in m
  {
    Frame(TempToHue(m[TopCasu].temp), TempToHue(m[BottomCasu].temp),
          Sectors(HeatingAreaHeight, m[TopCasu].irRanges), Sectors(HeatingAreaHeight, m[BottomCasu].irRanges))
  }

  /** `paintEvent`: the two CASUs are looked up (inserting defaults when they
      are missing), their heating areas coloured and their readings drawn. The
      map afterwards holds both CASUs and otherwise what it held. */
  method PaintEvent(sub: Subscriber) returns (frame: Frame)
    modifies sub`casuData
    ensures sub.casuData == Inserted(Inserted(old(sub.casuData), TopCasu, sub.defaultData), BottomCasu, sub.defaultData)
    ensures TopCasu in sub.casuData && BottomCasu in sub.casuData
    ensures frame == Render(sub.casuData)
  {
    var top := sub.Index(TopCasu);
    var topHue := TempToHue(top.temp);
    var bottom := sub.Index(BottomCasu);
    var bottomHue := TempToHue(bottom.temp);
    top := sub.Index(TopCasu);
    var topPies := DrawReadings(HeatingAreaHeight, top.irRanges);
    bottom := sub.Index(BottomCasu);
    var bottomPies := DrawReadings(HeatingAreaHeight, bottom.irRanges);
    frame := Frame(topHue, bottomHue, topPies, bottomPies);
  }

  /** Painting again leaves the map as the first paint left it and shows the
      same frame. */
  lemma PaintStable(m: map<string, CasuData>, default: CasuData)
    ensures var m1 := Inserted(Inserted(m, TopCasu, default), BottomCasu, default);
            Inserted(Inserted(m1, TopCasu, default), BottomCasu, default) == m1
  {
  }
}
