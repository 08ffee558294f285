/** ForceController: turning mirror forces into setpoints of the actuator cylinders, in millinewtons. */
module Setpoints {
  import opened Arithmetic
  import Modbus
  import opened HardpointMeaning

  const FaCount := 156
  const Sqrt2 := 1.4142135623730950488016887242097

  datatype Orientation = NA | PositiveX | NegativeX | PositiveY | NegativeY

  datatype Limit = Limit(low: real, high: real)

  /** The tables: where the forces and the second cylinder of an actuator are found, -1 standing for nowhere. */
  datatype Row = Row(orientation: Orientation, x: int, y: int, s: int, primary: Limit)

  datatype Tables = Tables(rows: seq<Row>, secondary: seq<Limit>)

  datatype Forces = Forces(x: seq<real>, y: seq<real>, z: seq<real>)

  ghost predicate TablesOk(t: Tables) {
    && |t.rows| == FaCount
    && (forall p :: 0 <= p < FaCount ==> -1 <= t.rows[p].s < |t.secondary|)
    && (forall p, q :: 0 <= p < q < FaCount && t.rows[p].s >= 0 ==> t.rows[p].s != t.rows[q].s)
  }

  predicate ForcesOk(t: Tables, f: Forces) {
    && |f.z| == |t.rows| == FaCount
    && forall p :: 0 <= p < FaCount ==>
         && (t.rows[p].orientation.PositiveX? || t.rows[p].orientation.NegativeX? ==> 0 <= t.rows[p].x < |f.x|)
         && (t.rows[p].orientation.PositiveY? || t.rows[p].orientation.NegativeY? ==> 0 <= t.rows[p].y < |f.y|)
  }

  /** _toInt24. */
  function ToInt24(force: real): int { Trunc(force * 1000.0) }

  /** The force asked of an actuator along its second axis, in the direction that axis points to. */
  function Lateral(t: Tables, f: Forces, p: nat): real
    requires p < FaCount && ForcesOk(t, f)
  {
    match t.rows[p].orientation
    case NA => 0.0
    case PositiveX => f.x[t.rows[p].x]
    case NegativeX => -f.x[t.rows[p].x]
    case PositiveY => f.y[t.rows[p].y]
    case NegativeY => -f.y[t.rows[p].y]
  }

  function PrimarySetpoint(t: Tables, f: Forces, p: nat): int
    requires p < FaCount && ForcesOk(t, f)
  {
    ToInt24(f.z[p] - Lateral(t, f, p))
  }

  /** Without an orientation the second cylinder keeps the setpoint it had. */
  function SecondarySetpoint(t: Tables, f: Forces, p: nat, was: int): int
    requires p < FaCount && ForcesOk(t, f)
  {
    if t.rows[p].orientation.NA? then was else ToInt24(Lateral(t, f, p) * Sqrt2)
  }

  /** Range::InRangeAndCoerce on integers, to which the limits are truncated. */
  method InRangeAndCoerce(limit: Limit, value: int) returns (inRange: bool, output: int)
    ensures output == Coerce(Trunc(limit.low), Trunc(limit.high), value)
    ensures inRange <==> output == value
  {
    var low, high := Trunc(limit.low), Trunc(limit.high);
    if low <= value <= high {
      return true, value;
    }
    return false, Coerce(low, high, value);
  }

  /** The unclamped setpoints of an actuator: in millinewtons, without the fraction, the vertical cylinder carries the Z
      force less the horizontal one it supports, the other cylinder the horizontal force times the square root of two,
      each counted in the direction the second axis points to. */
  predicate Carries(row: Row, f: Forces, p: nat, primary: int, secondary: int, was: int)
    requires p < |f.z|
    requires row.orientation.PositiveX? || row.orientation.NegativeX? ==> 0 <= row.x < |f.x|
    requires row.orientation.PositiveY? || row.orientation.NegativeY? ==> 0 <= row.y < |f.y|
  {
    match row.orientation
    case NA => Truncates(primary, f.z[p] * 1000.0) && secondary == was
    case PositiveX =>
      && Truncates(primary, (f.z[p] - f.x[row.x]) * 1000.0)
      && Truncates(secondary, f.x[row.x] * 1.4142135623730950488016887242097 * 1000.0)
    case NegativeX =>
      && Truncates(primary, (f.z[p] + f.x[row.x]) * 1000.0)
      && Truncates(secondary, -f.x[row.x] * 1.4142135623730950488016887242097 * 1000.0)
    case PositiveY =>
      && Truncates(primary, (f.z[p] - f.y[row.y]) * 1000.0)
      && Truncates(secondary, f.y[row.y] * 1.4142135623730950488016887242097 * 1000.0)
    case NegativeY =>
      && Truncates(primary, (f.z[p] + f.y[row.y]) * 1000.0)
      && Truncates(secondary, -f.y[row.y] * 1.4142135623730950488016887242097 * 1000.0)
  }

  /** The value sent: the unclamped one, or the limit it is beyond. */
  predicate Clamps(limit: Limit, value: int, sent: int) {
    sent == if value < Trunc(limit.low) then Trunc(limit.low)
            else if value > Trunc(limit.high) then Trunc(limit.high) else value
  }

  lemma SetpointsCarry(t: Tables, f: Forces, p: nat, was: int)
    requires p < FaCount && ForcesOk(t, f)
    ensures Carries(t.rows[p], f, p, PrimarySetpoint(t, f, p), SecondarySetpoint(t, f, p, was), was)
  {
    hide Truncates, Trunc;
    var row := t.rows[p];
    TruncIs((f.z[p] - Lateral(t, f, p)) * 1000.0);
    TruncIs(Lateral(t, f, p) * Sqrt2 * 1000.0);
    match row.orientation
    case NA => assert f.z[p] - Lateral(t, f, p) == f.z[p];
    case PositiveX =>
    case NegativeX => assert f.z[p] - Lateral(t, f, p) == f.z[p] + f.x[row.x];
    case PositiveY =>
    case NegativeY => assert f.z[p] - Lateral(t, f, p) == f.z[p] + f.y[row.y];
  }

  class SetpointConverter {
    const tables: Tables
    const preclippedPrimary: array<int>
    const preclippedSecondary: array<int>
    const appliedPrimary: array<int>
    const appliedSecondary: array<int>
    const warning: array<bool>

    ghost predicate Valid() {
      && TablesOk(tables)
      && preclippedPrimary.Length == appliedPrimary.Length == warning.Length == FaCount
      && preclippedSecondary.Length == appliedSecondary.Length == |tables.secondary|
      && preclippedPrimary != appliedPrimary && preclippedSecondary != appliedSecondary
      && preclippedPrimary != preclippedSecondary && preclippedPrimary != appliedSecondary
      && appliedPrimary != preclippedSecondary && appliedPrimary != appliedSecondary
    }

    constructor (tables: Tables)
      requires TablesOk(tables)
      ensures Valid() && this.tables == tables
    {
      this.tables := tables;
      preclippedPrimary := new int[FaCount](_ => 0);
      preclippedSecondary := new int[|tables.secondary|](_ => 0);
      appliedPrimary := new int[FaCount](_ => 0);
      appliedSecondary := new int[|tables.secondary|](_ => 0);
      warning := new bool[FaCount](_ => false);
    }

    /** Actuator `p` is converted: both its setpoints, their clamped values and its warning. */
    ghost predicate Converted(f: Forces, was: seq<int>, p: nat)
      requires Valid() && p < FaCount && ForcesOk(tables, f) && |was| == |tables.secondary|
      reads preclippedPrimary, preclippedSecondary, appliedPrimary, appliedSecondary, warning
    {
      var row := tables.rows[p];
      && preclippedPrimary[p] == PrimarySetpoint(tables, f, p)
      && appliedPrimary[p] == Coerce(Trunc(row.primary.low), Trunc(row.primary.high), preclippedPrimary[p])
      && (row.s >= 0 ==>
            && preclippedSecondary[row.s] == SecondarySetpoint(tables, f, p, was[row.s])
            && var limit := tables.secondary[row.s];
               appliedSecondary[row.s] == Coerce(Trunc(limit.low), Trunc(limit.high), preclippedSecondary[row.s]))
      && (warning[p] <==> Altered(p))
    }

    /** Some value of actuator `p` was altered by clamping. */
    predicate Altered(p: nat)
      requires Valid() && p < FaCount
      reads preclippedPrimary, preclippedSecondary, appliedPrimary, appliedSecondary
    {
      || appliedPrimary[p] != preclippedPrimary[p]
      || (tables.rows[p].s >= 0 && appliedSecondary[tables.rows[p].s] != preclippedSecondary[tables.rows[p].s])
    }

    /** The setpoints of actuator `p` carry the forces, and are sent within their limits. */
    ghost predicate SendsForces(f: Forces, was: seq<int>, p: nat)
      requires Valid() && p < FaCount && ForcesOk(tables, f) && |was| == |tables.secondary|
      reads preclippedPrimary, preclippedSecondary, appliedPrimary, appliedSecondary
    {
      var row := tables.rows[p];
      && Clamps(row.primary, preclippedPrimary[p], appliedPrimary[p])
      && (row.s >= 0 ==>
            && Carries(row, f, p, preclippedPrimary[p], preclippedSecondary[row.s], was[row.s])
            && Clamps(tables.secondary[row.s], preclippedSecondary[row.s], appliedSecondary[row.s]))
      && (row.s == -1 ==> exists unused, kept :: Carries(row, f, p, preclippedPrimary[p], unused, kept))
    }

    /** _convertForcesToSetpoints; `clipping` is what the safety controller is notified of. */
    method Convert(f: Forces) returns (clipping: bool)
      requires Valid() && ForcesOk(tables, f)
      modifies preclippedPrimary, preclippedSecondary, appliedPrimary, appliedSecondary, warning
      ensures forall p :: 0 <= p < FaCount ==> Converted(f, old(preclippedSecondary[..]), p)
      ensures forall p :: 0 <= p < FaCount ==> SendsForces(f, old(preclippedSecondary[..]), p)
      ensures clipping <==> exists p :: 0 <= p < FaCount && Altered(p)
    {
      hide Carries, Clamps;
      hide ToInt24, Trunc, Coerce, PrimarySetpoint, SecondarySetpoint;
      clipping := false;
      ghost var was := preclippedSecondary[..];
      for p := 0 to FaCount
        invariant forall k :: 0 <= k < p ==> Converted(f, was, k)
        invariant forall k :: p <= k < FaCount && tables.rows[k].s >= 0 ==>
                    preclippedSecondary[tables.rows[k].s] == was[tables.rows[k].s]
        invariant clipping <==> exists k :: 0 <= k < p && Altered(k)
      {
        label Before:
        var altered := ConvertOne(f, p);
        forall k | 0 <= k < p
          ensures Converted(f, was, k) && Altered(k) == old@Before(Altered(k))
        {
          assert old@Before(Converted(f, was, k));
          assert tables.rows[p].s >= 0 ==> tables.rows[k].s != tables.rows[p].s;
        }
        clipping := clipping || altered;
      }
      forall p | 0 <= p < FaCount
        ensures SendsForces(f, was, p)
      {
        ConvertedSends(f, was, p);
      }
    }

    lemma ConvertedSends(f: Forces, was: seq<int>, p: nat)
      requires Valid() && p < FaCount && ForcesOk(tables, f) && |was| == |tables.secondary| && Converted(f, was, p)
      ensures SendsForces(f, was, p)
    {
      hide PrimarySetpoint, SecondarySetpoint, Carries, Trunc;
      var row := tables.rows[p];
      var kept := if row.s >= 0 then was[row.s] else 0;
      SetpointsCarry(tables, f, p, kept);
    }

    method ConvertOne(f: Forces, p: nat) returns (altered: bool)
      requires Valid() && ForcesOk(tables, f) && p < FaCount
      modifies preclippedPrimary, preclippedSecondary, appliedPrimary, appliedSecondary, warning
      ensures Converted(f, old(preclippedSecondary[..]), p) && altered == Altered(p)
      ensures forall k :: 0 <= k < FaCount && k != p ==> preclippedPrimary[k] == old(preclippedPrimary[k])
      ensures forall k :: 0 <= k < FaCount && k != p ==> appliedPrimary[k] == old(appliedPrimary[k])
      ensures forall k :: 0 <= k < FaCount && k != p ==> warning[k] == old(warning[k])
      ensures forall j :: 0 <= j < |tables.secondary| && j != tables.rows[p].s ==>
                preclippedSecondary[j] == old(preclippedSecondary[j])
      ensures forall j :: 0 <= j < |tables.secondary| && j != tables.rows[p].s ==>
                appliedSecondary[j] == old(appliedSecondary[j])
    {
      hide ToInt24, Trunc, Coerce;
      var row := tables.rows[p];
      var s := row.s;
      altered := false;
      if s != -1 {
        match row.orientation {
          case PositiveY => preclippedSecondary[s] := ToInt24(f.y[row.y] * Sqrt2);
          case PositiveX => preclippedSecondary[s] := ToInt24(f.x[row.x] * Sqrt2);
          case NegativeX => preclippedSecondary[s] := ToInt24(-f.x[row.x] * Sqrt2);
          case NegativeY => preclippedSecondary[s] := ToInt24(-f.y[row.y] * Sqrt2);
          case NA =>
        }
        var inRange, output := InRangeAndCoerce(tables.secondary[s], preclippedSecondary[s]);
        appliedSecondary[s] := output;
        altered := !inRange;
      }
      match row.orientation {
        case PositiveY => preclippedPrimary[p] := ToInt24(f.z[p] - f.y[row.y]);
        case NA => preclippedPrimary[p] := ToInt24(f.z[p]);
        case PositiveX => preclippedPrimary[p] := ToInt24(f.z[p] - f.x[row.x]);
        case NegativeX => preclippedPrimary[p] := ToInt24(f.z[p] - -f.x[row.x]);
        case NegativeY => preclippedPrimary[p] := ToInt24(f.z[p] - -f.y[row.y]);
      }
      var inRange, output := InRangeAndCoerce(row.primary, preclippedPrimary[p]);
      appliedPrimary[p] := output;
      altered := altered || !inRange;
      warning[p] := altered;
    }
  }

  // ----- recovering the forces ----------------------------------------------------------------------------------

  predicate Within(a: real, b: real, tolerance: real) { -tolerance < a - b < tolerance }

  /** Before clamping nothing is lost but the truncation: from the setpoints the horizontal force is recovered within a
      millinewton divided by the square root of two, the Z force within that and one millinewton more. */
  lemma SetpointsRecoverable(row: Row, f: Forces, p: nat, primary: int, secondary: int, was: int)
    requires p < |f.z|
    requires row.orientation.PositiveX? || row.orientation.NegativeX? ==> 0 <= row.x < |f.x|
    requires row.orientation.PositiveY? || row.orientation.NegativeY? ==> 0 <= row.y < |f.y|
    requires Carries(row, f, p, primary, secondary, was)
    ensures var along := secondary as real / 1000.0 / 1.4142135623730950488016887242097;
            var tolerance := 0.001 / 1.4142135623730950488016887242097;
            && tolerance < 0.001
            && Within(primary as real / 1000.0 + if row.orientation.NA? then 0.0 else along, f.z[p], 0.001 + tolerance)
            && match row.orientation
               case NA => true
               case PositiveX => Within(along, f.x[row.x], tolerance)
               case NegativeX => Within(-along, f.x[row.x], tolerance)
               case PositiveY => Within(along, f.y[row.y], tolerance)
               case NegativeY => Within(-along, f.y[row.y], tolerance)
  {
  }

  /** Forces differing by more than twice that can be told apart: no two of them share their setpoints. */
  lemma SetpointsDistinguish(row: Row, f: Forces, g: Forces, p: nat, primary: int, secondary: int, was: int)
    requires p < |f.z| && p < |g.z|
    requires row.orientation.PositiveX? || row.orientation.NegativeX? ==> 0 <= row.x < |f.x| && row.x < |g.x|
    requires row.orientation.PositiveY? || row.orientation.NegativeY? ==> 0 <= row.y < |f.y| && row.y < |g.y|
    requires Carries(row, f, p, primary, secondary, was) && Carries(row, g, p, primary, secondary, was)
    ensures Within(f.z[p], g.z[p], 0.002 + 0.002 / Sqrt2)
    ensures match row.orientation
            case NA => true
            case PositiveX => Within(f.x[row.x], g.x[row.x], 0.002 / Sqrt2)
            case NegativeX => Within(f.x[row.x], g.x[row.x], 0.002 / Sqrt2)
            case PositiveY => Within(f.y[row.y], g.y[row.y], 0.002 / Sqrt2)
            case NegativeY => Within(f.y[row.y], g.y[row.y], 0.002 / Sqrt2)
  {
    hide Carries;
    SetpointsRecoverable(row, f, p, primary, secondary, was);
    SetpointsRecoverable(row, g, p, primary, secondary, was);
  }

  /** Conversion to setpoints does not itself keep to the 24 bits that are sent; clamping does. Every clamped value
      is what the actuator controller reads back, exactly when both limits fit 24 bits. */
  lemma ClampedReachesIlc(low: int, high: int)
    requires low <= high
    ensures (forall value :: Modbus.FromI24(Modbus.I24(Coerce(low, high, value))) == Coerce(low, high, value))
       <==> -0x80_0000 <= low && high < 0x80_0000
  {
    hide Modbus.FromI24, Modbus.I24;
    assert Coerce(low, high, low) == low && Coerce(low, high, high) == high;
    Modbus.I24RoundTrip(low);
    Modbus.I24RoundTrip(high);
    forall value
      ensures -0x80_0000 <= low && high < 0x80_0000 ==>
                Modbus.FromI24(Modbus.I24(Coerce(low, high, value))) == Coerce(low, high, value)
    {
      Modbus.I24RoundTrip(Coerce(low, high, value));
    }
  }
}
