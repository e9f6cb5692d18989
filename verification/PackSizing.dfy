/** Sizing a battery pack by adding parallel strings, and re-checking it with the components it must carry. */
module PackSizing {
  import opened Outcomes

  datatype Spec = Spec(airframe: real, payload: real, hoverPerKg: real, avionics: real, required: real, reserve: real,
                       cellVolts: real, cellAmpHours: real, cellMass: real, series: nat, depth: real)

  predicate Positive(s: Spec) {
    && s.airframe > 0.0 && s.payload > 0.0 && s.hoverPerKg > 0.0 && s.avionics > 0.0 && s.required > 0.0
    && s.reserve > 0.0 && s.cellVolts > 0.0 && s.cellAmpHours > 0.0 && s.cellMass > 0.0 && s.series > 0 && s.depth > 0.0
  }

  function PackMass(s: Spec, parallel: nat): real {
    s.series as real * parallel as real * s.cellMass
  }

  function AllUpMass(s: Spec, parallel: nat): real {
    s.airframe + s.payload + PackMass(s, parallel)
  }

  function PowerAt(s: Spec, mass: real): real {
    mass * s.hoverPerKg + s.avionics
  }

  function Usable(s: Spec, parallel: nat): real {
    s.series as real * s.cellVolts * s.cellAmpHours * parallel as real * s.depth
  }

  function MinutesAt(s: Spec, parallel: nat, mass: real): real
    requires PowerAt(s, mass) != 0.0
  {
    Usable(s, parallel) / PowerAt(s, mass) * 60.0
  }

  /** Required flight time with the reserve on top. */
  function Needed(s: Spec): real {
    s.required * (1.0 + s.reserve)
  }

  /** One string: its energy in watt-minutes, and the hover power it takes to carry itself. */
  function StringEnergy(s: Spec): real {
    s.series as real * s.cellVolts * s.cellAmpHours * s.depth * 60.0
  }

  function StringPower(s: Spec): real {
    s.series as real * s.cellMass * s.hoverPerKg
  }

  /** Hover power without any pack. */
  function BasePower(s: Spec): real {
    (s.airframe + s.payload) * s.hoverPerKg + s.avionics
  }

  lemma PositiveProduct(a: real, b: real)
    requires a > 0.0 && b > 0.0
    ensures a * b > 0.0
  {
  }

  /** Everything is linear in the parallel count. */
  lemma Linear(s: Spec, n: nat)
    requires Positive(s)
    ensures PowerAt(s, AllUpMass(s, n)) == BasePower(s) + n as real * StringPower(s)
    ensures Usable(s, n) * 60.0 == n as real * StringEnergy(s)
    ensures BasePower(s) > 0.0 && StringPower(s) > 0.0 && StringEnergy(s) > 0.0 && Needed(s) > 0.0
    ensures PowerAt(s, AllUpMass(s, n)) > 0.0
  {
    var k, m := s.series as real, n as real;
    assert k * m * s.cellMass * s.hoverPerKg == m * (k * s.cellMass * s.hoverPerKg);
    assert k * s.cellVolts * s.cellAmpHours * m * s.depth == m * (k * s.cellVolts * s.cellAmpHours * s.depth);
    PositiveProduct(k, s.cellMass);
    PositiveProduct(k * s.cellMass, s.hoverPerKg);
    PositiveProduct(k, s.cellVolts);
    PositiveProduct(k * s.cellVolts, s.cellAmpHours);
    PositiveProduct(k * s.cellVolts * s.cellAmpHours, s.depth);
    PositiveProduct(s.airframe + s.payload, s.hoverPerKg);
    PositiveProduct(s.required, 1.0 + s.reserve);
    assert m * StringPower(s) >= 0.0;
  }

  lemma DivideAtLeast(x: real, y: real, r: real)
    requires y > 0.0
    ensures x / y >= r <==> x >= r * y
    ensures x / y > r <==> x > r * y
  {
    assert x / y * y == x;
    if x / y > r {
      PositiveProduct(x / y - r, y);
      assert (x / y - r) * y == x / y * y - r * y;
    } else if x / y == r {
    } else {
      PositiveProduct(r - x / y, y);
      assert (r - x / y) * y == r * y - x / y * y;
    }
  }

  lemma DivideBelow(a: real, b: real, c: real, d: real)
    requires b > 0.0 && d > 0.0
    ensures a / b < c / d <==> a * d < c * b
  {
    DivideAtLeast(a, b, c / d);
    DivideAtLeast(c * b, d, a);
    assert c / d * b == c * b / d;
  }

  lemma MinutesRatio(s: Spec, n: nat)
    requires Positive(s)
    ensures PowerAt(s, AllUpMass(s, n)) > 0.0
    ensures MinutesAt(s, n, AllUpMass(s, n)) == n as real * StringEnergy(s) / (BasePower(s) + n as real * StringPower(s))
  {
    Linear(s, n);
    var u, p := Usable(s, n), PowerAt(s, AllUpMass(s, n));
    assert u / p * 60.0 == u * 60.0 / p;
  }

  ghost predicate Meets(s: Spec, n: nat)
    requires Positive(s)
  {
    Linear(s, n);
    MinutesAt(s, n, AllUpMass(s, n)) >= Needed(s)
  }

  /** The margin each further string brings. */
  function Margin(s: Spec): real {
    StringEnergy(s) - Needed(s) * StringPower(s)
  }

  lemma MeetsLinear(s: Spec, n: nat)
    requires Positive(s)
    ensures Meets(s, n) <==> n as real * Margin(s) >= Needed(s) * BasePower(s)
  {
    Linear(s, n);
    MinutesRatio(s, n);
    var m, r := n as real, Needed(s);
    DivideAtLeast(m * StringEnergy(s), BasePower(s) + m * StringPower(s), r);
    assert r * (BasePower(s) + m * StringPower(s)) == r * BasePower(s) + m * (r * StringPower(s));
    assert m * Margin(s) == m * StringEnergy(s) - m * (r * StringPower(s));
  }

  /** More strings always fly longer. */
  lemma MinutesGrow(s: Spec, n: nat, m: nat)
    requires Positive(s) && n < m
    ensures PowerAt(s, AllUpMass(s, n)) > 0.0 && PowerAt(s, AllUpMass(s, m)) > 0.0
    ensures MinutesAt(s, n, AllUpMass(s, n)) < MinutesAt(s, m, AllUpMass(s, m))
  {
    Linear(s, n);
    Linear(s, m);
    MinutesRatio(s, n);
    MinutesRatio(s, m);
    RatioGrows(n as real, m as real, StringEnergy(s), BasePower(s), StringPower(s));
  }

  lemma RatioGrows(x: real, y: real, e: real, b: real, g: real)
    requires 0.0 <= x < y && e > 0.0 && b > 0.0 && g > 0.0
    ensures b + x * g > 0.0 && b + y * g > 0.0
    ensures x * e / (b + x * g) < y * e / (b + y * g)
  {
    var c, d := b + x * g, b + y * g;
    assert x * g >= 0.0 && y * g > 0.0;
    DivideBelow(x * e, c, y * e, d);
    PositiveProduct(e, b);
    PositiveProduct(y - x, e * b);
    assert x * e * d == x * (e * b) + x * y * e * g;
    assert y * e * c == y * (e * b) + x * y * e * g;
  }

  /** A count that meets the requirement exists exactly when a string earns more than it costs to carry. */
  lemma SizeableIff(s: Spec)
    requires Positive(s)
    ensures (exists n: nat :: n >= 1 && Meets(s, n)) <==> Margin(s) > 0.0
  {
    Linear(s, 1);
    PositiveProduct(Needed(s), BasePower(s));
    if n: nat :| n >= 1 && Meets(s, n) {
      MeetsLinear(s, n);
      assert Margin(s) <= 0.0 ==> n as real * Margin(s) <= 0.0;
    }
    if Margin(s) > 0.0 {
      var n := Enough(s);
    }
  }

  lemma Enough(s: Spec) returns (n: nat)
    requires Positive(s) && Margin(s) > 0.0
    ensures n >= 1 && Meets(s, n)
  {
    Linear(s, 1);
    PositiveProduct(Needed(s), BasePower(s));
    n := ManyEnough(Needed(s) * BasePower(s), Margin(s));
    MeetsLinear(s, n);
  }

  lemma ManyEnough(r: real, d: real) returns (n: nat)
    requires r > 0.0 && d > 0.0
    ensures n >= 1 && n as real * d >= r
  {
    var q := r / d;
    DivideAtLeast(r, d, 0.0);
    var f := q.Floor;
    assert f as real <= q < f as real + 1.0;
    n := f + 1;
    assert n as real == f as real + 1.0;
    DivideAtLeast(r, d, n as real);
    assert r < n as real * d;
  }

  lemma MeetsIs(s: Spec, n: nat)
    requires Positive(s)
    ensures PowerAt(s, AllUpMass(s, n)) > 0.0
    ensures Meets(s, n) <==> MinutesAt(s, n, AllUpMass(s, n)) >= Needed(s)
  {
    Linear(s, n);
  }

  /** What the pack weighs, draws and lasts at one parallel count. */
  method Fly(s: Spec, parallel: nat) returns (mass: real, power: real, usable: real, minutes: real)
    requires Positive(s)
    ensures mass == AllUpMass(s, parallel) && power == PowerAt(s, mass) > 0.0 && usable == Usable(s, parallel)
    ensures minutes == MinutesAt(s, parallel, mass)
    ensures minutes >= Needed(s) <==> Meets(s, parallel)
  {
    MeetsIs(s, parallel);
    var packMass := s.series as real * parallel as real * s.cellMass;
    mass := s.airframe + s.payload + packMass;
    power := mass * s.hoverPerKg + s.avionics;
    var packVolts := s.series as real * s.cellVolts;
    usable := packVolts * s.cellAmpHours * parallel as real * s.depth;
    minutes := usable / power * 60.0;
  }

  /** The reserve is left over once the required time is flown. */
  predicate KeepsReserve(s: Spec, minutes: real) {
    minutes - s.required >= s.reserve * s.required
  }

  lemma ReserveIsNeeded(s: Spec)
    ensures forall minutes :: KeepsReserve(s, minutes) <==> minutes >= Needed(s)
  {
    assert s.required * (1.0 + s.reserve) == s.required + s.reserve * s.required;
  }

  ghost predicate LastsEnough(s: Spec, n: nat)
    requires Positive(s)
  {
    Linear(s, n);
    KeepsReserve(s, MinutesAt(s, n, AllUpMass(s, n)))
  }

  lemma MeetsLasts(s: Spec)
    requires Positive(s)
    ensures forall n: nat :: Meets(s, n) <==> LastsEnough(s, n)
  {
    ReserveIsNeeded(s);
  }

  /** Adds strings one at a time; without a margin the program's loop would never end. */
  method Size(s: Spec) returns (parallel: nat, mass: real, power: real, usable: real, minutes: real)
    requires Positive(s) && Margin(s) > 0.0
    ensures parallel >= 1 && Meets(s, parallel) && forall k: nat :: 1 <= k < parallel ==> !Meets(s, k)
    ensures mass == AllUpMass(s, parallel) && power == PowerAt(s, mass) > 0.0 && usable == Usable(s, parallel)
    ensures minutes == MinutesAt(s, parallel, mass)
    ensures KeepsReserve(s, minutes) && forall k: nat :: 1 <= k < parallel ==> !LastsEnough(s, k)
  {
    ReserveIsNeeded(s);
    MeetsLasts(s);
    hide *;
    ghost var bound := Enough(s);
    parallel := 1;
    while true
      invariant 1 <= parallel <= bound && forall k: nat :: 1 <= k < parallel ==> !Meets(s, k)
      decreases bound - parallel
    {
      mass, power, usable, minutes := Fly(s, parallel);
      if minutes >= Needed(s) {
        return;
      }
      parallel := parallel + 1;
    }
  }

  datatype Part = Part(id: string, mass: real, rating: real)

  /** Rated high enough, and lighter than every other such part, or as light and listed before it. */
  ghost predicate IsLightest(parts: seq<Part>, rating: real, best: nat) {
    && best < |parts| && parts[best].rating >= rating
    && forall k :: 0 <= k < |parts| && parts[k].rating >= rating ==>
         parts[best].mass <= parts[k].mass && (k < best ==> parts[best].mass < parts[k].mass)
  }

  method Lightest(parts: seq<Part>, rating: real) returns (best: Option<nat>)
    ensures best.None? <==> forall k :: 0 <= k < |parts| ==> parts[k].rating < rating
    ensures best.Some? ==> IsLightest(parts, rating, best.value)
  {
    best := None;
    for i := 0 to |parts|
      invariant best.None? <==> forall k :: 0 <= k < i ==> parts[k].rating < rating
      invariant best.Some? ==> best.value < i && parts[best.value].rating >= rating
      invariant best.Some? ==> forall k :: 0 <= k < i && parts[k].rating >= rating ==>
        parts[best.value].mass <= parts[k].mass && (k < best.value ==> parts[best.value].mass < parts[k].mass)
    {
      if parts[i].rating >= rating && (best.None? || parts[i].mass < parts[best.value].mass) {
        best := Some(i);
      }
    }
  }

  /** Mass added to a sized pack always costs flight time. */
  lemma MassCostsTime(s: Spec, n: nat, extra: real)
    requires Positive(s) && n >= 1 && extra > 0.0
    ensures PowerAt(s, AllUpMass(s, n)) > 0.0 && PowerAt(s, AllUpMass(s, n) + extra) > 0.0
    ensures MinutesAt(s, n, AllUpMass(s, n) + extra) < MinutesAt(s, n, AllUpMass(s, n))
  {
    Linear(s, n);
    PositiveProduct(extra, s.hoverPerKg);
    var u, p, q := Usable(s, n), PowerAt(s, AllUpMass(s, n)), PowerAt(s, AllUpMass(s, n) + extra);
    assert q == p + extra * s.hoverPerKg;
    PositiveProduct(n as real, StringEnergy(s));
    PositiveProduct(u, q - p);
    DivideBelow(u, q, u, p);
  }

  /** The slack of a sized pack: what its energy leaves once the requirement is flown at its own mass. */
  function Slack(s: Spec, n: nat): real {
    Usable(s, n) * 60.0 - Needed(s) * PowerAt(s, AllUpMass(s, n))
  }

  /** The re-check still passes exactly when the components' hover energy fits in the slack. */
  lemma RecheckIff(s: Spec, n: nat, extra: real)
    requires Positive(s) && n >= 1 && extra >= 0.0
    ensures PowerAt(s, AllUpMass(s, n) + extra) > 0.0
    ensures MinutesAt(s, n, AllUpMass(s, n) + extra) >= Needed(s) <==> Needed(s) * (extra * s.hoverPerKg) <= Slack(s, n)
  {
    Linear(s, n);
    var u, p, q := Usable(s, n), PowerAt(s, AllUpMass(s, n)), PowerAt(s, AllUpMass(s, n) + extra);
    assert extra * s.hoverPerKg >= 0.0;
    assert q == p + extra * s.hoverPerKg;
    DivideAtLeast(u * 60.0, q, Needed(s));
    assert u / q * 60.0 == u * 60.0 / q;
    assert Needed(s) * q == Needed(s) * p + Needed(s) * (extra * s.hoverPerKg);
  }

  /** Four of these lift half as much again as the mass. */
  predicate Lifts(m: Part, mass: real) {
    4.0 * m.rating >= 1.5 * mass
  }

  /** Four of these carry twice the power at the pack's voltage. */
  predicate Carries(s: Spec, e: Part, power: real) {
    4.0 * (e.rating * (s.series as real * s.cellVolts)) >= 2.0 * power
  }

  /** The first of the lightest parts that fit. */
  ghost predicate LightestLifting(parts: seq<Part>, mass: real, best: nat) {
    && best < |parts| && Lifts(parts[best], mass)
    && forall k :: 0 <= k < |parts| && Lifts(parts[k], mass) ==>
         parts[best].mass <= parts[k].mass && (k < best ==> parts[best].mass < parts[k].mass)
  }

  ghost predicate LightestCarrying(s: Spec, parts: seq<Part>, power: real, best: nat) {
    && best < |parts| && Carries(s, parts[best], power)
    && forall k :: 0 <= k < |parts| && Carries(s, parts[k], power) ==>
         parts[best].mass <= parts[k].mass && (k < best ==> parts[best].mass < parts[k].mass)
  }

  lemma ThrustLifts(parts: seq<Part>, mass: real)
    ensures forall k :: 0 <= k < |parts| ==> (parts[k].rating >= Thrust(mass) <==> Lifts(parts[k], mass))
    ensures forall best: nat :: IsLightest(parts, Thrust(mass), best) <==> LightestLifting(parts, mass, best)
  {
  }

  lemma CurrentCarries(s: Spec, parts: seq<Part>, power: real)
    requires Positive(s)
    ensures forall k :: 0 <= k < |parts| ==> (parts[k].rating >= Current(s, power) <==> Carries(s, parts[k], power))
    ensures forall best: nat :: IsLightest(parts, Current(s, power), best) <==> LightestCarrying(s, parts, power, best)
  {
    VoltsPositive(s);
    forall k | 0 <= k < |parts| ensures parts[k].rating >= Current(s, power) <==> Carries(s, parts[k], power) {
      CurrentAt(s.series as real * s.cellVolts, power, parts[k].rating);
    }
    hide Current, Carries;
  }

  lemma CurrentAt(volts: real, power: real, rating: real)
    requires volts > 0.0
    ensures rating >= 2.0 * (power / volts / 4.0) <==> 4.0 * (rating * volts) >= 2.0 * power
  {
    DivideAtLeast(power, volts, 2.0 * rating);
    assert power / volts == 2.0 * rating ==> power == 2.0 * rating * volts;
  }

  datatype Selection = Selection(motor: nat, esc: nat, mass: real, minutes: real, stillMeets: bool)

  lemma VoltsPositive(s: Spec)
    requires Positive(s)
    ensures s.series as real * s.cellVolts > 0.0
  {
    PositiveProduct(s.series as real, s.cellVolts);
  }

  /** Thrust asked of each of four motors: one and a half times the mass between them. */
  function Thrust(mass: real): real {
    1.5 * mass / 4.0
  }

  /** Current asked of each ESC: twice what one of four motors draws at hover. */
  function Current(s: Spec, power: real): real
    requires Positive(s)
  {
    VoltsPositive(s);
    2.0 * (power / (s.series as real * s.cellVolts) / 4.0)
  }

  /** Four of one part and four of another. */
  function PartsMass(motor: Part, esc: Part): (extra: real)
    ensures motor.mass > 0.0 && esc.mass > 0.0 ==> extra > 0.0
  {
    4.0 * motor.mass + 4.0 * esc.mass
  }

  /** Four motors and four ESCs for the sized pack, then the requirement again at the mass they make. */
  method Select(s: Spec, motors: seq<Part>, escs: seq<Part>) returns (parallel: nat, r: Option<Selection>)
    requires Positive(s) && Margin(s) > 0.0
    requires forall p :: p in motors + escs ==> p.mass > 0.0
    ensures parallel >= 1 && Meets(s, parallel) && forall k: nat :: 1 <= k < parallel ==> !Meets(s, k)
    ensures r.Some? ==>
      && LightestLifting(motors, AllUpMass(s, parallel), r.value.motor)
      && LightestCarrying(s, escs, PowerAt(s, AllUpMass(s, parallel)), r.value.esc)
      && r.value.mass == AllUpMass(s, parallel) + 4.0 * motors[r.value.motor].mass + 4.0 * escs[r.value.esc].mass
      && PowerAt(s, r.value.mass) > 0.0 && r.value.minutes == MinutesAt(s, parallel, r.value.mass)
      && (r.value.stillMeets <==> KeepsReserve(s, r.value.minutes))
    ensures r.Some? ==> var extra := r.value.mass - AllUpMass(s, parallel);
      r.value.stillMeets <==> Needed(s) * (extra * s.hoverPerKg) <= Slack(s, parallel)
    ensures r.None? <==>
      || (forall k :: 0 <= k < |motors| ==> !Lifts(motors[k], AllUpMass(s, parallel)))
      || (forall k :: 0 <= k < |escs| ==> !Carries(s, escs[k], PowerAt(s, AllUpMass(s, parallel))))
  {
    hide Meets, Needed, Slack, Usable, AllUpMass, Margin, MinutesAt, Positive, PowerAt, Thrust, Current, Lifts, Carries, KeepsReserve, LastsEnough;
    var mass, power, usable, minutes;
    parallel, mass, power, usable, minutes := Size(s);
    ThrustLifts(motors, mass);
    CurrentCarries(s, escs, power);
    var motor := Lightest(motors, Thrust(mass));
    var esc := Lightest(escs, Current(s, power));
    if motor.None? || esc.None? {
      return parallel, None;
    }
    assert motors[motor.value] in motors + escs && escs[esc.value] in motors + escs;
    var extra := PartsMass(motors[motor.value], escs[esc.value]);
    var loadedMinutes, meets := Recheck(s, parallel, mass, usable, extra);
    r := Some(Selection(motor.value, esc.value, mass + extra, loadedMinutes, meets));
  }

  method Recheck(s: Spec, parallel: nat, mass: real, usable: real, extra: real) returns (minutes: real, meets: bool)
    requires Positive(s) && parallel >= 1 && mass == AllUpMass(s, parallel) && usable == Usable(s, parallel) && extra >= 0.0
    ensures meets <==> Needed(s) * (extra * s.hoverPerKg) <= Slack(s, parallel)
    ensures meets <==> KeepsReserve(s, minutes)
    ensures PowerAt(s, mass + extra) > 0.0 && minutes == MinutesAt(s, parallel, mass + extra)
  {
    hide Slack, Usable, AllUpMass, Positive, Needed, KeepsReserve;
    RecheckIff(s, parallel, extra);
    ReserveIsNeeded(s);
    var power := (mass + extra) * s.hoverPerKg + s.avionics;
    assert power == PowerAt(s, mass + extra);
    hide PowerAt;
    minutes := usable / power * 60.0;
    assert minutes == MinutesAt(s, parallel, mass + extra);
    hide MinutesAt;
    meets := minutes >= Needed(s);
  }
}
