/** Regenerative cooling (resa_pro/core/cooling.py): rectangular channel
    geometry, channel sizing around the circumference, channel friction and
    the station-by-station marching analysis along the wall contour. */
module Cooling {
  import opened Common
  import opened RealArith
  import opened FeedSystem
  import opened Thermal

  /** A rectangular channel cross-section and the channel count. */
  datatype CoolingChannel = CoolingChannel(
    width: real,
    height: real,
    wallThickness: real,
    finWidth: real,
    nChannels: int)

  /** The dataclass defaults: 1 x 2 mm channels, 1 mm wall and fin, 40
      channels. */
  function DefaultChannel(): (c: CoolingChannel)
    ensures c.nChannels == 40 && c.width == 0.001 && c.height == 0.002
    ensures c.wallThickness == 0.001 && c.finWidth == 0.001
  {
    CoolingChannel(0.001, 0.002, 0.001, 0.001, 40)
  }

  /** Cross-sectional flow area w * h. */
  function Area(c: CoolingChannel): (a: real)
    ensures c.width > 0.0 && c.height > 0.0 ==> a > 0.0
    ensures a == Mul(c.width, c.height)
  {
    Mul(c.width, c.height)
  }

  /** Wetted perimeter 2 (w + h). */
  function WettedPerimeter(c: CoolingChannel): (p: real)
    ensures p / 2.0 == c.width + c.height
  {
    2.0 * (c.width + c.height)
  }

  /** Hydraulic diameter 4A / P; zero exactly when the area is. */
  function HydraulicDiameter(c: CoolingChannel): (dh: real)
    requires c.width + c.height != 0.0
    ensures dh * WettedPerimeter(c) == 4.0 * Area(c)
    ensures dh == 0.0 <==> Area(c) == 0.0
    ensures c.width > 0.0 && c.height > 0.0 ==> dh > 0.0
  {
    4.0 * Area(c) / WettedPerimeter(c)
  }

  /** Flow area of all channels together, n * A. */
  function TotalFlowArea(c: CoolingChannel): (a: real)
    ensures c.nChannels >= 1 ==> (a > 0.0 <==> Area(c) > 0.0)
    ensures a == Mul(c.nChannels as real, Area(c))
  {
    Mul(c.nChannels as real, Area(c))
  }

  /** A square channel's hydraulic diameter is its side. */
  lemma SquareChannelDiameter(c: CoolingChannel)
    requires c.width == c.height && c.width != 0.0
    ensures HydraulicDiameter(c) == c.width
  {
    var w := c.width;
    assert Area(c) == w * w;
    assert WettedPerimeter(c) == 4.0 * w;
    assert HydraulicDiameter(c) * (4.0 * w) == 4.0 * (w * w);
    assert 4.0 * w != 0.0;
    assert HydraulicDiameter(c) * (4.0 * w) == w * (4.0 * w);
  }

  /** The circumference at the channel mid-depth, 2 pi (r + t + h/2). */
  function ChannelCircumference(localRadius: real, wallThickness: real, channelHeight: real): (c: real)
    ensures c / (2.0 * PI) == localRadius + wallThickness + channelHeight / 2.0
  {
    2.0 * PI * (localRadius + wallThickness + channelHeight / 2.0)
  }

  /** `size_channels`: as many whole channel-plus-fin pitches as fit around
      the mid-depth circumference, at least one; the dimensions are kept. */
  function SizeChannels(localRadius: real, channelWidth: real, finWidth: real, channelHeight: real,
                        wallThickness: real): (c: CoolingChannel)
    requires channelWidth + finWidth != 0.0
    ensures c.width == channelWidth && c.height == channelHeight
    ensures c.wallThickness == wallThickness && c.finWidth == finWidth
    ensures c.nChannels >= 1
    ensures var circ := ChannelCircumference(localRadius, wallThickness, channelHeight);
            var pitch := channelWidth + finWidth;
            pitch > 0.0 && circ >= pitch ==>
              c.nChannels as real * pitch <= circ < (c.nChannels + 1) as real * pitch
    ensures var circ := ChannelCircumference(localRadius, wallThickness, channelHeight);
            var pitch := channelWidth + finWidth;
            pitch > 0.0 && circ < pitch ==> c.nChannels == 1
  {
    var circ := ChannelCircumference(localRadius, wallThickness, channelHeight);
    var pitch := channelWidth + finWidth;
    var n := if Trunc(circ / pitch) > 1 then Trunc(circ / pitch) else 1;
    if pitch > 0.0 && circ >= pitch then
      QuotientAtLeastOne(circ, pitch);
      PitchCount(circ, pitch, Trunc(circ / pitch));
      CoolingChannel(channelWidth, channelHeight, wallThickness, finWidth, n)
    else if pitch > 0.0 then
      DivPosStrictMono(circ, pitch, pitch);
      CoolingChannel(channelWidth, channelHeight, wallThickness, finWidth, n)
    else
      CoolingChannel(channelWidth, channelHeight, wallThickness, finWidth, n)
  }

  /** Multiplying the truncation bounds on circ / pitch back by the pitch. */
  lemma PitchCount(circ: real, pitch: real, n: int)
    requires pitch > 0.0 && n as real <= circ / pitch < n as real + 1.0
    ensures n as real * pitch <= circ < (n + 1) as real * pitch
  {
    var q := circ / pitch;
    MulNonnegMono(n as real, q, pitch);
    MulPosStrictMono(q, n as real + 1.0, pitch);
    DivMulCancel(circ, pitch);
    assert (n + 1) as real * pitch == (n as real + 1.0) * pitch;
  }

  /** A larger radius never gives fewer channels. */
  lemma CountGrowsWithRadius(r1: real, r2: real, channelWidth: real, finWidth: real, channelHeight: real,
                             wallThickness: real)
    requires r1 <= r2 && channelWidth + finWidth > 0.0
    ensures SizeChannels(r1, channelWidth, finWidth, channelHeight, wallThickness).nChannels
            <= SizeChannels(r2, channelWidth, finWidth, channelHeight, wallThickness).nChannels
  {
    var pitch := channelWidth + finWidth;
    var c1 := ChannelCircumference(r1, wallThickness, channelHeight);
    var c2 := ChannelCircumference(r2, wallThickness, channelHeight);
    assert c1 <= c2;
    DivPosMono(c1, c2, pitch);
    TruncMono(c1 / pitch, c2 / pitch);
  }

  /** A wider pitch never gives more channels. */
  lemma CountFallsWithPitch(localRadius: real, w1: real, f1: real, w2: real, f2: real, channelHeight: real,
                            wallThickness: real)
    requires 0.0 < w1 + f1 <= w2 + f2
    ensures SizeChannels(localRadius, w2, f2, channelHeight, wallThickness).nChannels
            <= SizeChannels(localRadius, w1, f1, channelHeight, wallThickness).nChannels
  {
    var circ := ChannelCircumference(localRadius, wallThickness, channelHeight);
    if circ >= 0.0 {
      DivByLargerMono(circ, w1 + f1, w2 + f2);
      TruncMono(circ / (w2 + f2), circ / (w1 + f1));
    } else {
      DivPosStrictMono(circ, 0.0, w2 + f2);
      TruncMono(circ / (w2 + f2), 0.0);
    }
  }

  /** `_friction_factor`: laminar 64 / max(Re, 1) below Re = 2300, the
      Swamee-Jain factor of eps/Dh and Re above. */
  function ChannelFriction(re: real, dh: real, roughness: real, turbulent: FrictionFn): (f: real)
    requires re >= 2300.0 ==> dh != 0.0
    ensures re < 2300.0 ==> f * Max(re, 1.0) == 64.0 && f > 0.0
    ensures re >= 2300.0 ==> f == turbulent(roughness / dh, re)
  {
    if re < 2300.0 then 64.0 / Max(re, 1.0) else turbulent(roughness / dh, re)
  }

  /** `channel_pressure_drop`: Darcy-Weisbach f (L / Dh) rho v^2 / 2. */
  function ChannelPressureDrop(length: real, dh: real, rho: real, velocity: real, re: real, roughness: real,
                               turbulent: FrictionFn): (dp: real)
    requires dh != 0.0
    ensures length == 0.0 ==> dp == 0.0
    ensures dp == length * ChannelDropPerLength(dh, rho, velocity, re, roughness, turbulent)
  {
    var f := ChannelFriction(re, dh, roughness, turbulent);
    var dp := f * (length / dh) * 0.5 * rho * Sq(velocity);
    assert dp == length * (f / dh * 0.5 * rho * Sq(velocity));
    dp
  }

  /** The drop per metre of channel, f / Dh * rho v^2 / 2. */
  function ChannelDropPerLength(dh: real, rho: real, velocity: real, re: real, roughness: real,
                                turbulent: FrictionFn): (g: real)
    requires dh != 0.0
    ensures dh > 0.0 && rho > 0.0 && velocity != 0.0 && ChannelFriction(re, dh, roughness, turbulent) > 0.0
            ==> g > 0.0
  {
    var f := ChannelFriction(re, dh, roughness, turbulent);
    if dh > 0.0 && rho > 0.0 && velocity != 0.0 && f > 0.0 then
      PosDivPos(f, dh);
      PosMulPos(f / dh * 0.5, rho);
      PosMulPos(f / dh * 0.5 * rho, Sq(velocity));
      f / dh * 0.5 * rho * Sq(velocity)
    else f / dh * 0.5 * rho * Sq(velocity)
  }

  /** The drop is additive in length, and a longer channel loses strictly
      more whenever the friction factor, density and velocity are positive. */
  lemma DropLinearInLength(l1: real, l2: real, dh: real, rho: real, velocity: real, re: real, roughness: real,
                           turbulent: FrictionFn)
    requires dh != 0.0
    ensures ChannelPressureDrop(l1 + l2, dh, rho, velocity, re, roughness, turbulent)
            == ChannelPressureDrop(l1, dh, rho, velocity, re, roughness, turbulent)
               + ChannelPressureDrop(l2, dh, rho, velocity, re, roughness, turbulent)
    ensures l1 < l2 && ChannelDropPerLength(dh, rho, velocity, re, roughness, turbulent) > 0.0 ==>
              ChannelPressureDrop(l1, dh, rho, velocity, re, roughness, turbulent)
              < ChannelPressureDrop(l2, dh, rho, velocity, re, roughness, turbulent)
  {
    LinearInLength(l1, l2, ChannelDropPerLength(dh, rho, velocity, re, roughness, turbulent),
                   ChannelPressureDrop(l1, dh, rho, velocity, re, roughness, turbulent),
                   ChannelPressureDrop(l2, dh, rho, velocity, re, roughness, turbulent),
                   ChannelPressureDrop(l1 + l2, dh, rho, velocity, re, roughness, turbulent));
  }

  /** Drops proportional to length add up, and grow with length when the
      drop per metre is positive. */
  lemma LinearInLength(l1: real, l2: real, g: real, d1: real, d2: real, d12: real)
    requires d1 == l1 * g && d2 == l2 * g && d12 == (l1 + l2) * g
    ensures d12 == d1 + d2
    ensures l1 < l2 && g > 0.0 ==> d1 < d2
  {
    if l1 < l2 && g > 0.0 {
      MulPosStrictMono(l1, l2, g);
    }
  }

  // ---------------------------------------------------------------------
  // Station marching

  /** Inputs of `analyze_regen_cooling` that the marching uses. The Bartz
      coefficient's fixed arguments (Pc, c*, Dt, molar mass) are closed over
      by the `bartz` correlation below. */
  datatype CoolingInputs = CoolingInputs(
    contourX: seq<real>,
    contourY: seq<real>,
    throatRadius: real,
    chamberTemperature: real,
    gamma: real,
    massFlow: real,
    inletTemperature: real,
    cp: real,
    rho: real,
    mu: real,
    k: real,
    wallConductivity: real,
    channelWidth: real,
    channelHeight: real,
    wallThickness: real,
    finWidth: real,
    counterFlow: bool)

  /** The transcendental correlations: the approximate Mach number for an
      area ratio, the Bartz coefficient h_g(T_wall, area ratio), the
      Dittus-Boelter Nusselt number Nu(Re, Pr) and the turbulent friction
      factor. */
  datatype Correlations = Correlations(
    mach: real -> real,
    bartz: (real, real) -> real,
    nusselt: (real, real) -> real,
    turbulent: FrictionFn)

  /** The results at one station. */
  datatype CoolingStation = CoolingStation(
    x: real,
    radius: real,
    channel: CoolingChannel,
    hg: real,
    qDot: real,
    taw: real,
    hc: real,
    coolantTemperature: real,
    coolantVelocity: real,
    re: real,
    dp: real,
    twg: real,
    twc: real,
    kWall: real)

  datatype CoolingAnalysisResult = CoolingAnalysisResult(
    stations: seq<CoolingStation>,
    totalPressureDrop: real,
    coolantOutletTemperature: real,
    maxWallTemperature: real,
    maxHeatFlux: real,
    totalHeatLoad: real)

  /** What the analysis needs to run without a division by zero or an index
      out of range: a radius for every axial position, a non-zero throat,
      a channel of non-zero area and pitch, a density when the channels have
      area, and a wall whose conduction resistance is not negative. */
  predicate WellFormed(i: CoolingInputs)
  {
    |i.contourY| >= |i.contourX| && i.throatRadius != 0.0 && i.gamma >= 1.0
    && i.channelWidth + i.channelHeight != 0.0 && i.channelWidth * i.channelHeight != 0.0
    && i.channelWidth + i.finWidth != 0.0
    && (i.rho != 0.0 || i.channelWidth * i.channelHeight < 0.0)
    && (i.wallConductivity <= 0.0 || i.wallThickness >= 0.0)
  }

  /** The marching order: exit to injector (last to first) with counter
      flow, first to last otherwise. */
  function Order(n: nat, counterFlow: bool): (o: seq<int>)
    ensures |o| == n
    ensures forall j :: 0 <= j < n ==> o[j] == if counterFlow then n - 1 - j else j
  {
    if counterFlow then seq(n, j => n - 1 - j) else seq(n, j => j)
  }

  /** Either way every contour point is visited exactly once: the order
      stays on the contour and never repeats a point; with counter flow
      the march starts at the nozzle exit and runs backwards. */
  lemma OrderVisitsEachPointOnce(n: nat, counterFlow: bool)
    ensures IndexesInto(Order(n, counterFlow), n)
    ensures forall j, k :: 0 <= j < k < n ==> Order(n, counterFlow)[j] != Order(n, counterFlow)[k]
    ensures counterFlow ==> forall j :: 0 <= j < n - 1 ==> Order(n, counterFlow)[j] == Order(n, counterFlow)[j + 1] + 1
    ensures !counterFlow ==> forall j :: 0 <= j < n - 1 ==> Order(n, counterFlow)[j] + 1 == Order(n, counterFlow)[j + 1]
  {
  }

  /** The axial step into the j-th visited station: 0 at the first. */
  function Dx(xs: seq<real>, order: seq<int>, j: int): (dx: real)
    requires 0 <= j < |order| && IndexesInto(order, |xs|)
    ensures dx >= 0.0
    ensures j == 0 ==> dx == 0.0
  {
    if j > 0 then Abs(xs[order[j]] - xs[order[j - 1]]) else 0.0
  }

  /** Heat picked up over a station of wall radius r and length dx,
      q * 2 pi r dx. */
  function HeatOver(qDot: real, radius: real, dx: real): (dq: real)
    ensures dx == 0.0 ==> dq == 0.0
    ensures qDot >= 0.0 && radius >= 0.0 && dx >= 0.0 ==> dq >= 0.0
  {
    assert radius >= 0.0 && dx >= 0.0 ==> 2.0 * PI * radius >= 0.0;
    Mul(qDot, Mul(2.0 * PI * radius, dx))
  }

  /** The heat a station took up over the step into it. */
  function StationHeat(s: CoolingStation, dx: real): (dq: real)
    ensures dq == HeatOver(s.qDot, s.radius, dx)
  {
    HeatOver(s.qDot, s.radius, dx)
  }

  /** The resistance of a film: 1/h, or 1e10 when h is not positive. */
  function FilmResistance(h: real): (r: real)
    ensures r > 0.0
    ensures h > 0.0 ==> r * h == 1.0
  {
    if h > 0.0 then 1.0 / h else 10000000000.0
  }

  /** The gas side at a wall radius: the local area ratio (at least 1),
      the Mach number (sonic up to ratio 1.001) and the adiabatic wall
      temperature with recovery factor 0.9. */
  function GasSide(i: CoolingInputs, cr: Correlations, r: real): (g: (real, real))
    requires i.throatRadius != 0.0 && i.gamma >= 1.0
    ensures g.0 >= 1.0
    ensures g.1 == AdiabaticWallTemperature(i.chamberTemperature, i.gamma,
                                            if g.0 > 1.001 then cr.mach(g.0) else 1.0, 0.9)
  {
    var at := PI * Sq(i.throatRadius);
    var ar := Max(PI * Sq(r) / at, 1.0);
    var mach := if ar > 1.001 then cr.mach(ar) else 1.0;
    (ar, AdiabaticWallTemperature(i.chamberTemperature, i.gamma, mach, 0.9))
  }

  /** The coolant side at a wall radius: the channel layout, the coolant
      velocity (0 without flow area), the Reynolds number (0 without
      viscosity) and the Dittus-Boelter coefficient Nu k / Dh with Pr = 0.7
      when the conductivity is not positive. */
  datatype CoolantFlow = CoolantFlow(channel: CoolingChannel, velocity: real, re: real, hc: real)

  function CoolantSide(i: CoolingInputs, cr: Correlations, r: real): (c: CoolantFlow)
    requires WellFormed(i)
    ensures c.channel == SizeChannels(r, i.channelWidth, i.finWidth, i.channelHeight, i.wallThickness)
    ensures TotalFlowArea(c.channel) > 0.0 ==> c.velocity * (i.rho * TotalFlowArea(c.channel)) == i.massFlow
    ensures TotalFlowArea(c.channel) <= 0.0 ==> c.velocity == 0.0
    ensures i.mu <= 0.0 ==> c.re == 0.0
    ensures HydraulicDiameter(c.channel) != 0.0
  {
    var chan := SizeChannels(r, i.channelWidth, i.finWidth, i.channelHeight, i.wallThickness);
    var flowArea := TotalFlowArea(chan);
    assert flowArea > 0.0 ==> i.rho * flowArea != 0.0 by {
      if flowArea > 0.0 {
        assert Area(chan) > 0.0;
        NonzeroProduct(i.rho, flowArea);
      }
    }
    var v := if flowArea > 0.0 then i.massFlow / (i.rho * flowArea) else 0.0;
    var dh := HydraulicDiameter(chan);
    var re := if i.mu > 0.0 then i.rho * v * dh / i.mu else 0.0;
    var pr := if i.k > 0.0 then i.mu * i.cp / i.k else 0.7;
    CoolantFlow(chan, v, re, cr.nusselt(re, pr) * i.k / dh)
  }

  /** One station of the march, entered at coolant temperature `tCool`
      after an axial step `dx`. The wall sits between the coolant and the
      adiabatic wall temperature in the three-resistance network; the step
      adds the channel drop over dx (none when dx = 0) and the coolant warms
      by the station heat over m cp when both are positive. */
  function StationAt(i: CoolingInputs, cr: Correlations, idx: int, dx: real, tCool: real): (s: CoolingStation)
    requires WellFormed(i) && 0 <= idx < |i.contourX|
    ensures s.x == i.contourX[idx] && s.radius == i.contourY[idx]
    ensures s.channel == SizeChannels(s.radius, i.channelWidth, i.finWidth, i.channelHeight, i.wallThickness)
    ensures s.kWall == i.wallConductivity
    ensures dx <= 0.0 ==> s.dp == 0.0
    ensures dx > 0.0 ==> s.dp == ChannelPressureDrop(dx, HydraulicDiameter(s.channel), i.rho, s.coolantVelocity,
                                                      s.re, 0.000003, cr.turbulent)
    ensures s.coolantTemperature == WarmedCoolant(tCool, StationHeat(s, dx), i.massFlow, i.cp)
    ensures s.taw > tCool ==> tCool < s.twc <= s.twg < s.taw && s.qDot > 0.0
  {
    var r := i.contourY[idx];
    var gas := GasSide(i, cr, r);
    var hg := cr.bartz(Max(tCool + 100.0, 500.0), gas.0);
    var cool := CoolantSide(i, cr, r);
    var net := StationWall(gas.1, tCool, hg, cool.hc, i.wallThickness, i.wallConductivity);
    var dp := if dx > 0.0
              then ChannelPressureDrop(dx, HydraulicDiameter(cool.channel), i.rho, cool.velocity, cool.re, 0.000003,
                                       cr.turbulent)
              else 0.0;
    var dq := HeatOver(net.0, r, dx);
    CoolingStation(i.contourX[idx], r, cool.channel, hg, net.0, gas.1, cool.hc,
                   WarmedCoolant(tCool, dq, i.massFlow, i.cp), cool.velocity, cool.re, dp, net.1, net.2,
                   i.wallConductivity)
  }

  /** The coolant temperature after taking up dq: raised by dq / (m cp)
      when both are positive, unchanged otherwise. */
  function WarmedCoolant(tCool: real, dq: real, massFlow: real, cp: real): (t: real)
    ensures massFlow > 0.0 && cp > 0.0 ==> t == tCool + dq / (massFlow * cp)
    ensures !(massFlow > 0.0 && cp > 0.0) ==> t == tCool
  {
    if massFlow > 0.0 && cp > 0.0 then tCool + dq / (massFlow * cp) else tCool
  }

  /** Energy balance of one station: with m cp > 0 the heat taken up is
      exactly m cp times the temperature rise. */
  lemma WarmedBalance(tCool: real, dq: real, massFlow: real, cp: real)
    requires massFlow > 0.0 && cp > 0.0
    ensures (WarmedCoolant(tCool, dq, massFlow, cp) - tCool) * (massFlow * cp) == dq
  {
    PosMulPos(massFlow, cp);
    DivMulCancel(dq, massFlow * cp);
  }

  /** Two successive rises over the same m cp add up to the rise of the
      summed heat. */
  lemma RisesAdd(inlet: real, h: real, dq: real, tOld: real, tNew: real, mcp: real)
    requires mcp > 0.0 && tOld == inlet + h / mcp && tNew == tOld + dq / mcp
    ensures tNew == inlet + (h + dq) / mcp
  {
    DivAdd(h, dq, mcp);
  }

  /** The station's wall network (q, T_wg, T_wc) with film resistances
      that fall back to 1e10 for a non-positive coefficient. */
  function StationWall(taw: real, tCool: real, hg: real, hc: real, thickness: real, conductivity: real)
    : (r: (real, real, real))
    requires conductivity <= 0.0 || thickness >= 0.0
    ensures taw > tCool ==> r.0 > 0.0 && tCool < r.2 <= r.1 < taw
    ensures taw - r.1 == r.0 * FilmResistance(hg) && r.2 - tCool == r.0 * FilmResistance(hc)
  {
    var rg := FilmResistance(hg);
    var rw := if conductivity > 0.0 then thickness / conductivity else 10000000000.0;
    assert rw >= 0.0 by {
      if conductivity > 0.0 {
        DivPosMono(0.0, thickness, conductivity);
      }
    }
    var rc := FilmResistance(hc);
    var q := (taw - tCool) / (rg + rw + rc);
    WallNetworkOrder(taw, tCool, q, rg, rw, rc);
    (q, taw - q * rg, tCool + q * rc)
  }

  /** Order of the temperatures through a positive resistance chain. */
  lemma WallNetworkOrder(taw: real, tCool: real, q: real, rg: real, rw: real, rc: real)
    requires rg > 0.0 && rw >= 0.0 && rc > 0.0 && q == (taw - tCool) / (rg + rw + rc)
    ensures taw > tCool ==> q > 0.0 && tCool < tCool + q * rc <= taw - q * rg < taw
  {
    if taw > tCool {
      var rt := rg + rw + rc;
      PosDivPos(taw - tCool, rt);
      PosMulPos(q, rg);
      PosMulPos(q, rc);
      MulNonnegMono(0.0, q, rw);
      assert q * rt == taw - tCool;
      assert q * rt == q * rg + q * rw + q * rc;
    }
  }

  /** The coolant temperature a station is entered at: the inlet
      temperature at the first station, the previous station's afterwards. */
  function CoolantBefore(inlet: real, stations: seq<CoolingStation>, j: int): (t: real)
    requires 0 <= j <= |stations|
    ensures j == 0 ==> t == inlet
    ensures j > 0 ==> t == stations[j - 1].coolantTemperature
  {
    if j == 0 then inlet else stations[j - 1].coolantTemperature
  }

  function StationDp(s: CoolingStation): real { s.dp }
  function StationTwg(s: CoolingStation): real { s.twg }
  function StationFlux(s: CoolingStation): real { s.qDot }

  /** The sum of a station field over a sequence of stations. */
  function SumOf(stations: seq<CoolingStation>, f: CoolingStation -> real): (total: real)
    ensures (forall j :: 0 <= j < |stations| ==> f(stations[j]) >= 0.0) ==> total >= 0.0
  {
    if |stations| == 0 then 0.0 else SumOf(stations[..|stations| - 1], f) + f(stations[|stations| - 1])
  }

  /** The running maximum of a station field, starting from 0. */
  function RunningMax(stations: seq<CoolingStation>, f: CoolingStation -> real): (m: real)
    ensures m >= 0.0
  {
    if |stations| == 0 then 0.0 else Max(RunningMax(stations[..|stations| - 1], f), f(stations[|stations| - 1]))
  }

  /** The running maximum bounds every station's value and is either the
      starting 0 or one of those values. */
  lemma {:induction false} RunningMaxBounds(stations: seq<CoolingStation>, f: CoolingStation -> real)
    ensures forall j :: 0 <= j < |stations| ==> f(stations[j]) <= RunningMax(stations, f)
    ensures RunningMax(stations, f) == 0.0
            || exists j :: 0 <= j < |stations| && RunningMax(stations, f) == f(stations[j])
  {
    if |stations| > 0 {
      var prefix := stations[..|stations| - 1];
      RunningMaxBounds(prefix, f);
      assert forall j :: 0 <= j < |prefix| ==> prefix[j] == stations[j];
      if RunningMax(prefix, f) != 0.0 && RunningMax(stations, f) == RunningMax(prefix, f) {
        var j :| 0 <= j < |prefix| && RunningMax(prefix, f) == f(prefix[j]);
        assert RunningMax(stations, f) == f(stations[j]);
      }
    }
  }

  /** Appending a station extends the sum and the running maximum by that
      station's value. */
  lemma AppendStation(stations: seq<CoolingStation>, s: CoolingStation, f: CoolingStation -> real)
    ensures SumOf(stations + [s], f) == SumOf(stations, f) + f(s)
    ensures RunningMax(stations + [s], f) == Max(RunningMax(stations, f), f(s))
  {
    assert (stations + [s])[..|stations|] == stations;
  }

  /** The heat picked up over the first k stations of the march. */
  function HeatSum(stations: seq<CoolingStation>, xs: seq<real>, order: seq<int>, k: int): (total: real)
    requires 0 <= k <= |stations| <= |order|
    requires IndexesInto(order, |xs|)
    decreases k
  {
    if k == 0 then 0.0 else HeatSum(stations, xs, order, k - 1) + StationHeat(stations[k - 1], Dx(xs, order, k - 1))
  }

  /** Appending the station reached next extends the heat sum by its heat. */
  lemma HeatSumAppend(stations: seq<CoolingStation>, s: CoolingStation, xs: seq<real>, order: seq<int>)
    requires |stations| < |order| && IndexesInto(order, |xs|)
    ensures HeatSum(stations + [s], xs, order, |stations| + 1)
            == HeatSum(stations, xs, order, |stations|) + StationHeat(s, Dx(xs, order, |stations|))
  {
    assert (stations + [s])[..|stations|] == stations[..|stations|];
    HeatSumPrefix(stations + [s], stations, xs, order, |stations|);
  }

  /** The heat sum depends only on the stations it has reached. */
  lemma {:induction false} HeatSumPrefix(s1: seq<CoolingStation>, s2: seq<CoolingStation>, xs: seq<real>,
                                         order: seq<int>, k: int)
    requires 0 <= k <= |s1| <= |order| && k <= |s2| <= |order|
    requires IndexesInto(order, |xs|)
    requires s1[..k] == s2[..k]
    ensures HeatSum(s1, xs, order, k) == HeatSum(s2, xs, order, k)
  {
    if k > 0 {
      assert s1[..k - 1] == s2[..k - 1];
      assert s1[k - 1] == s1[..k][k - 1] == s2[..k][k - 1] == s2[k - 1];
      HeatSumPrefix(s1, s2, xs, order, k - 1);
    }
  }

  /** Visit orders over n points: every entry indexes a point. */
  predicate IndexesInto(order: seq<int>, n: int)
  {
    forall t :: 0 <= t < |order| ==> 0 <= order[t] < n
  }

  /** The station model as a function of (point index, axial step,
      entering coolant temperature). */
  type StationFn = (int, real, real) -> CoolingStation

  /** Placeholder for indices off the contour, which the march never
      visits. */
  const OffContour := CoolingStation(0.0, 0.0, DefaultChannel(), 0.0, 0.0, 0.0, 0.0, 0.0, 0.0, 0.0, 0.0, 0.0, 0.0,
                                     0.0)

  /** The station model of one analysis as a function value. */
  function StationOf(i: CoolingInputs, cr: Correlations): StationFn
  {
    (idx: int, dx: real, t: real) =>
      if WellFormed(i) && 0 <= idx < |i.contourX| then StationAt(i, cr, idx, dx, t) else OffContour
  }

  /** On the contour the station model is `StationAt`. */
  lemma StationOfIsStationAt(i: CoolingInputs, cr: Correlations, idx: int, dx: real, t: real)
    requires WellFormed(i) && 0 <= idx < |i.contourX|
    ensures StationOf(i, cr)(idx, dx, t) == StationAt(i, cr, idx, dx, t)
  {
  }

  /** The first k stations of a march along `order` from coolant inlet
      temperature `inlet`: each is computed at the temperature the previous
      one left. */
  function March(xs: seq<real>, order: seq<int>, inlet: real, step: StationFn, k: nat): (st: seq<CoolingStation>)
    requires k <= |order| && IndexesInto(order, |xs|)
    ensures |st| == k
    decreases k
  {
    if k == 0 then []
    else
      var prev := March(xs, order, inlet, step, k - 1);
      prev + [step(order[k - 1], Dx(xs, order, k - 1), CoolantBefore(inlet, prev, k - 1))]
  }

  /** Station t of a march is the station model at the t-th visited point,
      after the t-th axial step, entered at the temperature station t - 1
      left (the inlet temperature for t = 0). */
  lemma {:induction false} MarchStation(xs: seq<real>, order: seq<int>, inlet: real, step: StationFn, k: nat,
                                        t: nat)
    requires t < k <= |order| && IndexesInto(order, |xs|)
    ensures March(xs, order, inlet, step, k)[t]
            == step(order[t], Dx(xs, order, t), CoolantBefore(inlet, March(xs, order, inlet, step, k), t))
    decreases k
  {
    var prev := March(xs, order, inlet, step, k - 1);
    var st := March(xs, order, inlet, step, k);
    if t > 0 {
      assert st[t - 1] == prev[t - 1];
    }
    assert CoolantBefore(inlet, st, t) == CoolantBefore(inlet, prev, t);
    if t < k - 1 {
      MarchStation(xs, order, inlet, step, k - 1, t);
      assert st[t] == prev[t];
    }
  }

  /** A station model warms the coolant by the station heat over m cp. */
  ghost predicate Warms(step: StationFn, n: int, massFlow: real, cp: real)
  {
    forall idx, dx, t {:trigger step(idx, dx, t)} :: 0 <= idx < n ==>
      step(idx, dx, t).coolantTemperature == WarmedCoolant(t, StationHeat(step(idx, dx, t), dx), massFlow, cp)
  }

  lemma StationOfWarms(i: CoolingInputs, cr: Correlations)
    requires WellFormed(i)
    ensures Warms(StationOf(i, cr), |i.contourX|, i.massFlow, i.cp)
  {
    var step := StationOf(i, cr);
    forall idx, dx, t | 0 <= idx < |i.contourX|
      ensures step(idx, dx, t).coolantTemperature
              == WarmedCoolant(t, StationHeat(step(idx, dx, t), dx), i.massFlow, i.cp)
    {
      StationOfIsStationAt(i, cr, idx, dx, t);
    }
  }

  /** What the result of a march records about the stations it has
      reached: the total pressure drop and heat load summed over them, the
      coolant outlet temperature the last one left, the peak wall
      temperature and heat flux (from 0), and the energy balance: with
      m cp > 0 the coolant leaves warmer by exactly the heat load over m cp,
      otherwise at the inlet temperature. */
  predicate Summarises(res: CoolingAnalysisResult, xs: seq<real>, order: seq<int>, inlet: real,
                       massFlow: real, cp: real)
    requires IndexesInto(order, |xs|) && |res.stations| <= |order|
  {
    && res.totalHeatLoad == HeatSum(res.stations, xs, order, |res.stations|)
    && res.totalPressureDrop == SumOf(res.stations, StationDp)
    && res.coolantOutletTemperature == CoolantBefore(inlet, res.stations, |res.stations|)
    && res.maxWallTemperature == RunningMax(res.stations, StationTwg)
    && res.maxHeatFlux == RunningMax(res.stations, StationFlux)
    && (massFlow > 0.0 && cp > 0.0 ==> res.coolantOutletTemperature == inlet + res.totalHeatLoad / (massFlow * cp))
    && (!(massFlow > 0.0 && cp > 0.0) ==> res.coolantOutletTemperature == inlet)
  }

  /** One step of the march keeps the summary: append a station that warmed
      the coolant by its own heat pickup, add its drop and heat, and raise
      the peaks to it. */
  lemma SummarisesAppend(res: CoolingAnalysisResult, s: CoolingStation, xs: seq<real>, order: seq<int>,
                         inlet: real, massFlow: real, cp: real)
    requires IndexesInto(order, |xs|) && |res.stations| < |order|
    requires Summarises(res, xs, order, inlet, massFlow, cp)
    requires s.coolantTemperature
             == WarmedCoolant(res.coolantOutletTemperature, StationHeat(s, Dx(xs, order, |res.stations|)), massFlow, cp)
    ensures Summarises(CoolingAnalysisResult(res.stations + [s], res.totalPressureDrop + s.dp, s.coolantTemperature,
                                             Max(res.maxWallTemperature, s.twg), Max(res.maxHeatFlux, s.qDot),
                                             res.totalHeatLoad + StationHeat(s, Dx(xs, order, |res.stations|))),
                       xs, order, inlet, massFlow, cp)
  {
    var dq := StationHeat(s, Dx(xs, order, |res.stations|));
    var st := res.stations + [s];
    TotalsAppend(res.stations, s, xs, order);
    assert CoolantBefore(inlet, st, |st|) == s.coolantTemperature;
    OutletAppend(inlet, res.totalHeatLoad, dq, res.coolantOutletTemperature, s.coolantTemperature, massFlow, cp);
  }

  /** The energy balance of the outlet survives one more station: a rise
      of dq / (m cp) on top of h / (m cp) is a rise of (h + dq) / (m cp). */
  lemma OutletAppend(inlet: real, h: real, dq: real, tOld: real, tNew: real, massFlow: real, cp: real)
    requires massFlow > 0.0 && cp > 0.0 ==> tOld == inlet + h / (massFlow * cp)
    requires !(massFlow > 0.0 && cp > 0.0) ==> tOld == inlet
    requires tNew == WarmedCoolant(tOld, dq, massFlow, cp)
    ensures massFlow > 0.0 && cp > 0.0 ==> tNew == inlet + (h + dq) / (massFlow * cp)
    ensures !(massFlow > 0.0 && cp > 0.0) ==> tNew == inlet
  {
    if massFlow > 0.0 && cp > 0.0 {
      RisesAdd(inlet, h, dq, tOld, tNew, massFlow * cp);
    }
  }

  /** Appending a station adds its drop and heat to the sums and raises
      the peaks to it. */
  lemma TotalsAppend(stations: seq<CoolingStation>, s: CoolingStation, xs: seq<real>, order: seq<int>)
    requires IndexesInto(order, |xs|) && |stations| < |order|
    ensures HeatSum(stations + [s], xs, order, |stations| + 1)
            == HeatSum(stations, xs, order, |stations|) + StationHeat(s, Dx(xs, order, |stations|))
    ensures SumOf(stations + [s], StationDp) == SumOf(stations, StationDp) + s.dp
    ensures RunningMax(stations + [s], StationTwg) == Max(RunningMax(stations, StationTwg), s.twg)
    ensures RunningMax(stations + [s], StationFlux) == Max(RunningMax(stations, StationFlux), s.qDot)
  {
    AppendStation(stations, s, StationDp);
    AppendStation(stations, s, StationTwg);
    AppendStation(stations, s, StationFlux);
    HeatSumAppend(stations, s, xs, order);
  }

  /** The marching loop of `analyze_regen_cooling` over a station model:
      visit the points in `order`, threading the coolant temperature from
      one station to the next and accumulating the pressure drop, the heat
      load and the peak wall temperature and heat flux (both from 0). The
      coolant leaves warmer by exactly the total heat load over m cp. */
  method MarchCoolant(xs: seq<real>, order: seq<int>, inlet: real, massFlow: real, cp: real, step: StationFn)
    returns (res: CoolingAnalysisResult)
    requires IndexesInto(order, |xs|) && Warms(step, |xs|, massFlow, cp)
    ensures res.stations == March(xs, order, inlet, step, |order|)
    ensures Summarises(res, xs, order, inlet, massFlow, cp)
  {
    var tCool := inlet;
    var totalDp := 0.0;
    var totalHeat := 0.0;
    var maxTwg := 0.0;
    var maxQ := 0.0;
    var stations: seq<CoolingStation> := [];
    var j := 0;
    while j < |order|
      invariant 0 <= j <= |order| && |stations| == j
      invariant stations == March(xs, order, inlet, step, j)
      invariant Summarises(CoolingAnalysisResult(stations, totalDp, tCool, maxTwg, maxQ, totalHeat),
                           xs, order, inlet, massFlow, cp)
    {
      var dx := Dx(xs, order, j);
      var s := step(order[j], dx, tCool);
      var dq := StationHeat(s, dx);
      assert s.coolantTemperature == WarmedCoolant(tCool, dq, massFlow, cp);
      SummarisesAppend(CoolingAnalysisResult(stations, totalDp, tCool, maxTwg, maxQ, totalHeat), s,
                       xs, order, inlet, massFlow, cp);
      assert stations + [s] == March(xs, order, inlet, step, j + 1);
      totalDp := totalDp + s.dp;
      if massFlow > 0.0 && cp > 0.0 {
        tCool := tCool + dq / (massFlow * cp);
      }
      assert tCool == s.coolantTemperature;
      totalHeat := totalHeat + dq;
      maxTwg := Max(maxTwg, s.twg);
      maxQ := Max(maxQ, s.qDot);
      stations := stations + [s];
      j := j + 1;
    }
    res := CoolingAnalysisResult(stations, totalDp, tCool, maxTwg, maxQ, totalHeat);
  }

  /** `analyze_regen_cooling`: the march of the station model along the
      contour, exit to injector with counter flow. */
  method AnalyzeRegenCooling(i: CoolingInputs, cr: Correlations) returns (res: CoolingAnalysisResult)
    requires WellFormed(i)
    ensures var order := Order(|i.contourX|, i.counterFlow);
            res.stations == March(i.contourX, order, i.inletTemperature, StationOf(i, cr), |i.contourX|)
            && Summarises(res, i.contourX, order, i.inletTemperature, i.massFlow, i.cp)
  {
    var order := Order(|i.contourX|, i.counterFlow);
    var step := StationOf(i, cr);
    StationOfWarms(i, cr);
    OrderVisitsEachPointOnce(|i.contourX|, i.counterFlow);
    res := MarchCoolant(i.contourX, order, i.inletTemperature, i.massFlow, i.cp, step);
  }


  /** The first station adds neither pressure drop nor heat, and the coolant
      leaves it at the inlet temperature. */
  lemma FirstStationAddsNothing(i: CoolingInputs, cr: Correlations, idx: int)
    requires WellFormed(i) && 0 <= idx < |i.contourX|
    ensures var s := StationAt(i, cr, idx, 0.0, i.inletTemperature);
            s.dp == 0.0 && StationHeat(s, 0.0) == 0.0 && s.coolantTemperature == i.inletTemperature
  {
    var s := StationAt(i, cr, idx, 0.0, i.inletTemperature);
    assert StationHeat(s, 0.0) == 0.0;
    WarmedByNothing(i.inletTemperature, i.massFlow, i.cp);
  }

  /** Taking up no heat leaves the coolant temperature as it was. */
  lemma WarmedByNothing(tCool: real, massFlow: real, cp: real)
    ensures WarmedCoolant(tCool, 0.0, massFlow, cp) == tCool
  {
    if massFlow > 0.0 && cp > 0.0 {
      assert 0.0 / (massFlow * cp) == 0.0;
    }
  }

  /** Stations whose flux and radius are non-negative pick up a
      non-negative total heat load. */
  lemma {:induction false} HeatSumNonnegative(stations: seq<CoolingStation>, xs: seq<real>, order: seq<int>, k: int)
    requires 0 <= k <= |stations| <= |order|
    requires IndexesInto(order, |xs|)
    requires forall t :: 0 <= t < |stations| ==> stations[t].qDot >= 0.0 && stations[t].radius >= 0.0
    ensures HeatSum(stations, xs, order, k) >= 0.0
    decreases k
  {
    if k > 0 {
      HeatSumNonnegative(stations, xs, order, k - 1);
      var s := stations[k - 1];
      var dx := Dx(xs, order, k - 1);
      assert 2.0 * PI * s.radius >= 0.0;
      MulNonnegMono(0.0, 2.0 * PI * s.radius, dx);
    }
  }

  /** A summarised march whose stations all pick up heat delivers the
      coolant no colder than it entered. */
  lemma OutletNoColder(res: CoolingAnalysisResult, xs: seq<real>, order: seq<int>, inlet: real,
                       massFlow: real, cp: real)
    requires IndexesInto(order, |xs|) && |res.stations| <= |order|
    requires Summarises(res, xs, order, inlet, massFlow, cp)
    requires forall t :: 0 <= t < |res.stations| ==> res.stations[t].qDot >= 0.0 && res.stations[t].radius >= 0.0
    ensures res.coolantOutletTemperature >= inlet
  {
    HeatSumNonnegative(res.stations, xs, order, |res.stations|);
    if massFlow > 0.0 && cp > 0.0 {
      PosMulPos(massFlow, cp);
      DivPosMono(0.0, res.totalHeatLoad, massFlow * cp);
    }
  }
}
