/**
 * The per-track calculators of `TrackTagGenerator`: speed bands, g-force
 * load factors, path linearity, altitude behaviour, engine configuration and
 * the inferred role. Each takes the samples of one track in file order and
 * returns its tags together with the metrics the Python method returns beside them.
 *
 * Real numbers stand in for NumPy's doubles. A standard deviation is kept
 * as its square (`Stats.Variance`) and a load factor `sqrt(1 + g^2)` as
 * `1 + g^2`; every threshold test on them is the same test on the square of
 * a non-negative threshold.
 */
module Analytics {
  import opened Common
  import opened Stats

  /** The numeric columns of one CSV row: knots, degrees, feet. */
  datatype Sample = Sample(speed: real, heading: real, elevation: real)

  /** Every tag the generator can emit; `Name` is the text written to the CSV. */
  datatype Tag =
    | VerySlowMoving | SlowMoving | ModerateSpeed | FastMoving | VeryFastMoving
    | VariableSpeed | ConstantSpeed | SupersonicCapable
    | Extreme10gPlus | Extreme8gTo10g | High6gTo8g | Moderate4gTo6g | Light2gTo4g | MinimalManeuvering
    | LinearPath | StraightFlight | MostlyLinear | CurvedPath | SerpentinePattern | SharpTurns | ModerateTurns
    | HighAltitude | CruiseAltitude | MediumAltitude | LowAltitude
    | LevelFlight | LargeAltitudeChange | Climbing | Descending
    | TwinEngine | FourEngine | SingleEngine | EightEngine | UnknownEngineConfig
    | MilitaryFighterProfile | TacticalManeuvering | CommercialAirlinerProfile | GeneralAviationProfile
    | TrackOfType(trackType: string)
  {
    /** The tag as written in the CSV; only a track type can bring a `;` into it. */
    function Name(): string {
      match this
      case VerySlowMoving => "very_slow_moving"
      case SlowMoving => "slow_moving"
      case ModerateSpeed => "moderate_speed"
      case FastMoving => "fast_moving"
      case VeryFastMoving => "very_fast_moving"
      case VariableSpeed => "variable_speed"
      case ConstantSpeed => "constant_speed"
      case SupersonicCapable => "supersonic_capable"
      case Extreme10gPlus => "extreme_maneuvering_10g_plus"
      case Extreme8gTo10g => "extreme_maneuvering_8g_10g"
      case High6gTo8g => "high_maneuvering_6g_8g"
      case Moderate4gTo6g => "moderate_maneuvering_4g_6g"
      case Light2gTo4g => "light_maneuvering_2g_4g"
      case MinimalManeuvering => "minimal_maneuvering"
      case LinearPath => "linear_path"
      case StraightFlight => "straight_flight"
      case MostlyLinear => "mostly_linear"
      case CurvedPath => "curved_path"
      case SerpentinePattern => "serpentine_pattern"
      case SharpTurns => "sharp_turns"
      case ModerateTurns => "moderate_turns"
      case HighAltitude => "high_altitude"
      case CruiseAltitude => "cruise_altitude"
      case MediumAltitude => "medium_altitude"
      case LowAltitude => "low_altitude"
      case LevelFlight => "level_flight"
      case LargeAltitudeChange => "large_altitude_change"
      case Climbing => "climbing"
      case Descending => "descending"
      case TwinEngine => "twin_engine"
      case FourEngine => "four_engine"
      case SingleEngine => "single_engine"
      case EightEngine => "eight_engine"
      case UnknownEngineConfig => "unknown_engine_config"
      case MilitaryFighterProfile => "military_fighter_profile"
      case TacticalManeuvering => "tactical_maneuvering"
      case CommercialAirlinerProfile => "commercial_airliner_profile"
      case GeneralAviationProfile => "general_aviation_profile"
      case TrackOfType(t) => t + "_track"
    }

    predicate IsSpeedBand() {
      VerySlowMoving? || SlowMoving? || ModerateSpeed? || FastMoving? || VeryFastMoving?
    }

    predicate IsManeuvering() {
      Extreme10gPlus? || Extreme8gTo10g? || High6gTo8g? || Moderate4gTo6g? || Light2gTo4g? || MinimalManeuvering?
    }

    predicate IsPathShape() {
      LinearPath? || MostlyLinear? || CurvedPath?
    }

    predicate IsAltitudeBand() {
      HighAltitude? || CruiseAltitude? || MediumAltitude? || LowAltitude?
    }

    predicate IsEngine() {
      TwinEngine? || FourEngine? || SingleEngine? || EightEngine? || UnknownEngineConfig?
    }

    predicate IsRole() {
      MilitaryFighterProfile? || TacticalManeuvering? || CommercialAirlinerProfile? || GeneralAviationProfile?
    }
  }

  /** A calculator's tags and the metrics returned with them. */
  datatype Tagged<M> = Tagged(tags: seq<Tag>, metrics: M)

  /** Why a tag computation raises instead of returning. */
  datatype TagError =
    | NoDataLoaded            // ValueError: `generate_all_tags` before `load_csv`
    | MissingKey(key: string) // KeyError on a metrics dictionary

  function Speeds(track: seq<Sample>): (r: seq<real>)
    ensures |r| == |track| && forall i :: 0 <= i < |r| ==> r[i] == track[i].speed
  {
    seq(|track|, i requires 0 <= i < |track| => track[i].speed)
  }

  function Headings(track: seq<Sample>): (r: seq<real>)
    ensures |r| == |track| && forall i :: 0 <= i < |r| ==> r[i] == track[i].heading
  {
    seq(|track|, i requires 0 <= i < |track| => track[i].heading)
  }

  function Elevations(track: seq<Sample>): (r: seq<real>)
    ensures |r| == |track| && forall i :: 0 <= i < |r| ==> r[i] == track[i].elevation
  {
    seq(|track|, i requires 0 <= i < |track| => track[i].elevation)
  }

  predicate IsHeading(h: real) {
    0.0 <= h < 360.0
  }

  // ---------------------------------------------------------------- speed

  /**
   * The band of an average speed in knots; each bound belongs to the band
   * above it (150 knots is `slow_moving`).
   */
  function SpeedBand(avg: real): (band: Tag)
    ensures band.IsSpeedBand()
    ensures band == VerySlowMoving <==> avg < 150.0
    ensures band == SlowMoving <==> 150.0 <= avg < 250.0
    ensures band == ModerateSpeed <==> 250.0 <= avg < 400.0
    ensures band == FastMoving <==> 400.0 <= avg < 550.0
    ensures band == VeryFastMoving <==> 550.0 <= avg
  {
    if avg < 150.0 then VerySlowMoving
    else if avg < 250.0 then SlowMoving
    else if avg < 400.0 then ModerateSpeed
    else if avg < 550.0 then FastMoving
    else VeryFastMoving
  }

  function BandRank(band: Tag): nat {
    match band
    case VerySlowMoving => 0
    case SlowMoving => 1
    case ModerateSpeed => 2
    case FastMoving => 3
    case _ => 4
  }

  /** A faster average never lands in a slower band. */
  lemma SpeedBandMonotone(avg: real, avg': real)
    requires avg <= avg'
    ensures BandRank(SpeedBand(avg)) <= BandRank(SpeedBand(avg'))
  {
  }

  /** `variable_speed` above a standard deviation of 50 knots, `constant_speed` below 10. */
  function Variability(variance: real): (r: seq<Tag>)
    ensures VariableSpeed in r <==> variance > 50.0 * 50.0
    ensures ConstantSpeed in r <==> variance < 10.0 * 10.0
    ensures forall i :: 0 <= i < |r| ==> r[i] == VariableSpeed || r[i] == ConstantSpeed
  {
    if variance > 50.0 * 50.0 then [VariableSpeed]
    else if variance < 10.0 * 10.0 then [ConstantSpeed]
    else []
  }

  /** `avg_speed`, `max_speed`, `min_speed` and the square of `speed_std`. */
  datatype SpeedMetrics = SpeedMetrics(avgSpeed: real, maxSpeed: real, minSpeed: real, speedVariance: real)

  /** The speed tags of an average, a variance and a maximum, in the order `calculate_speed_tags` appends them. */
  function SpeedTagList(avg: real, variance: real, max: real): (r: seq<Tag>)
    ensures |r| >= 1 && r[0] == SpeedBand(avg)
    ensures forall i :: 1 <= i < |r| ==> !r[i].IsSpeedBand()
    ensures VariableSpeed in r <==> variance > 50.0 * 50.0
    ensures ConstantSpeed in r <==> variance < 10.0 * 10.0
    ensures SupersonicCapable in r <==> max > 600.0
  {
    var variability := Variability(variance);
    var extreme := if max > 600.0 then [SupersonicCapable] else [];
    assert forall t :: t in [SpeedBand(avg)] + variability + extreme <==> t == SpeedBand(avg) || t in variability || t in extreme;
    [SpeedBand(avg)] + variability + extreme
  }

  /** `calculate_speed_tags`: a band, then at most one variability tag, then `supersonic_capable`. */
  function SpeedTags(track: seq<Sample>): (r: Tagged<SpeedMetrics>)
    requires track != []
    ensures r.metrics == SpeedMetrics(Mean(Speeds(track)), Max(Speeds(track)), Min(Speeds(track)), Variance(Speeds(track)))
    ensures r.tags == SpeedTagList(r.metrics.avgSpeed, r.metrics.speedVariance, r.metrics.maxSpeed)
  {
    var speeds := Speeds(track);
    var avg := Mean(speeds);
    var max := Max(speeds);
    Tagged(SpeedTagList(avg, Variance(speeds), max), SpeedMetrics(avg, max, Min(speeds), Variance(speeds)))
  }

  /**
   * The speed metrics are those of the track: the average lies between the
   * slowest and the fastest sample, and `supersonic_capable` is given exactly
   * when some sample is faster than 600 knots.
   */
  lemma SpeedMetricsOfTrack(track: seq<Sample>)
    requires track != []
    ensures var m := SpeedTags(track).metrics;
      && m.minSpeed <= m.avgSpeed <= m.maxSpeed
      && (exists i :: 0 <= i < |track| && track[i].speed == m.maxSpeed)
      && (forall i :: 0 <= i < |track| ==> m.minSpeed <= track[i].speed <= m.maxSpeed)
    ensures SupersonicCapable in SpeedTags(track).tags <==> exists i :: 0 <= i < |track| && track[i].speed > 600.0
  {
    var speeds := Speeds(track);
    MeanBetween(speeds);
  }

  /** A track flown at one speed is tagged `constant_speed` and never `variable_speed`. */
  lemma SteadySpeedIsConstant(track: seq<Sample>, v: real)
    requires track != [] && forall i :: 0 <= i < |track| ==> track[i].speed == v
    ensures ConstantSpeed in SpeedTags(track).tags && VariableSpeed !in SpeedTags(track).tags
    ensures SpeedTags(track).metrics.avgSpeed == v
  {
    VarianceConstant(Speeds(track), v);
  }

  // ------------------------------------------------------------- headings

  /** The two wrap-around corrections applied to a heading difference. */
  function NormalizeDelta(d: real): (r: real)
    ensures r == d || r == d - 360.0 || r == d + 360.0
    ensures -360.0 < d < 360.0 ==> -180.0 <= r <= 180.0
    ensures -180.0 <= d <= 180.0 ==> r == d
  {
    var once := if d > 180.0 then d - 360.0 else d;
    if once < -180.0 then once + 360.0 else once
  }

  /** Turning from 359 to 1 degrees is a change of +2, not -358. */
  lemma WrapAroundTurn()
    ensures NormalizeDelta(1.0 - 359.0) == 2.0
  {
  }

  /** The corrected changes of heading between consecutive samples. */
  function HeadingDeltas(track: seq<Sample>): (r: seq<real>)
    ensures |r| == if track == [] then 0 else |track| - 1
    ensures forall i :: 0 <= i < |r| ==> r[i] == NormalizeDelta(track[i + 1].heading - track[i].heading)
  {
    var d := Diff(Headings(track));
    seq(|d|, i requires 0 <= i < |d| => NormalizeDelta(d[i]))
  }

  /** Between compass headings every corrected change is at most half a turn either way. */
  lemma DeltasWithinHalfTurn(track: seq<Sample>)
    requires forall i :: 0 <= i < |track| ==> IsHeading(track[i].heading)
    ensures forall i :: 0 <= i < |HeadingDeltas(track)| ==> -180.0 <= HeadingDeltas(track)[i] <= 180.0
  {
    var r := HeadingDeltas(track);
    forall i | 0 <= i < |r|
      ensures -180.0 <= r[i] <= 180.0
    {
      assert IsHeading(track[i].heading) && IsHeading(track[i + 1].heading);
    }
  }

  // -------------------------------------------------------------- g-force

  /** Knots to metres per second. */
  const KNOT: real := 0.514444
  const PI: real := 3.141592653589793
  /** Seconds between samples. */
  const DT: real := 30.0
  const GRAVITY: real := 9.81

  /**
   * The square of the load factor of a turn through `delta` degrees in one
   * sample interval at `speed` knots: `1 + g^2`, where `g` is the lateral
   * acceleration (speed times turn rate) in units of gravity.
   */
  function LoadSquared(delta: real, speed: real): (r: real)
    ensures r >= 1.0
  {
    var g := LateralG(delta, speed);
    assert g * g >= 0.0 by {
      if g < 0.0 { assert g * g == (-g) * (-g); }
    }
    1.0 + g * g
  }

  /** The lateral acceleration, in units of gravity, of turning through `delta` degrees in one interval. */
  function LateralG(delta: real, speed: real): real {
    speed * KNOT * (Abs(delta) * PI / 180.0 / DT) / GRAVITY
  }

  /** The load factor computed step by step as the loop does it is `LoadSquared`. */
  lemma LoadSteps(delta: real, speed: real, headingRate: real, v: real, lateralAccel: real, gForce: real)
    requires headingRate == Abs(delta) * PI / 180.0 / DT && v == speed * KNOT
    requires lateralAccel == v * headingRate && gForce == lateralAccel / GRAVITY
    ensures 1.0 + gForce * gForce == LoadSquared(delta, speed)
  {
  }

  /**
   * The squared load factors of the first `k` heading changes that exceed
   * 0.1 degrees, in order; change `i` is flown at the speed of sample `i`.
   */
  function Loads(deltas: seq<real>, speeds: seq<real>, k: nat): (r: seq<real>)
    requires k <= |deltas| <= |speeds|
    ensures |r| <= k
    ensures forall i :: 0 <= i < |r| ==> r[i] >= 1.0
    ensures r == [] <==> forall i :: 0 <= i < k ==> Abs(deltas[i]) <= 0.1
  {
    if k == 0 then []
    else
      var prior := Loads(deltas, speeds, k - 1);
      if Abs(deltas[k - 1]) > 0.1 then prior + [LoadSquared(deltas[k - 1], speeds[k - 1])] else prior
  }

  /** Each load factor is that of some change of heading above 0.1 degrees. */
  lemma {:induction false} LoadsFromChanges(deltas: seq<real>, speeds: seq<real>, k: nat)
    requires k <= |deltas| <= |speeds|
    ensures forall j :: 0 <= j < |Loads(deltas, speeds, k)| ==>
      exists i :: 0 <= i < k && Abs(deltas[i]) > 0.1 && Loads(deltas, speeds, k)[j] == LoadSquared(deltas[i], speeds[i])
    decreases k
  {
    if k > 0 {
      LoadsFromChanges(deltas, speeds, k - 1);
      var prior := Loads(deltas, speeds, k - 1);
      var r := Loads(deltas, speeds, k);
      forall j | 0 <= j < |r|
        ensures exists i :: 0 <= i < k && Abs(deltas[i]) > 0.1 && r[j] == LoadSquared(deltas[i], speeds[i])
      {
        if j < |prior| {
          assert r[j] == prior[j];
          var i :| 0 <= i < k - 1 && Abs(deltas[i]) > 0.1 && prior[j] == LoadSquared(deltas[i], speeds[i]);
          assert 0 <= i < k && Abs(deltas[i]) > 0.1 && r[j] == LoadSquared(deltas[i], speeds[i]);
        } else {
          assert 0 <= k - 1 < k && Abs(deltas[k - 1]) > 0.1 && r[j] == LoadSquared(deltas[k - 1], speeds[k - 1]);
        }
      }
    } else {
      assert Loads(deltas, speeds, k) == [];
    }
  }

  /** Each change of heading above 0.1 degrees has its load factor among the loads. */
  lemma {:induction false} LoadsCoverChanges(deltas: seq<real>, speeds: seq<real>, k: nat)
    requires k <= |deltas| <= |speeds|
    ensures forall i :: 0 <= i < k && Abs(deltas[i]) > 0.1 ==> LoadSquared(deltas[i], speeds[i]) in Loads(deltas, speeds, k)
    decreases k
  {
    if k > 0 {
      LoadsCoverChanges(deltas, speeds, k - 1);
      var prior := Loads(deltas, speeds, k - 1);
      var r := Loads(deltas, speeds, k);
      assert forall x :: x in prior ==> x in r;
      forall i | 0 <= i < k && Abs(deltas[i]) > 0.1
        ensures LoadSquared(deltas[i], speeds[i]) in r
      {
        if i < k - 1 {
          assert LoadSquared(deltas[i], speeds[i]) in prior;
        } else {
          assert r[|r| - 1] == LoadSquared(deltas[i], speeds[i]);
        }
      }
    }
  }

  /** The maneuvering tag of the largest load factor, given as its square. */
  function GForceBand(maxSquared: real): (band: Tag)
    ensures band.IsManeuvering()
    ensures band == Extreme10gPlus <==> maxSquared > 10.0 * 10.0
    ensures band == Extreme8gTo10g <==> 8.0 * 8.0 < maxSquared <= 10.0 * 10.0
    ensures band == High6gTo8g <==> 6.0 * 6.0 < maxSquared <= 8.0 * 8.0
    ensures band == Moderate4gTo6g <==> 4.0 * 4.0 < maxSquared <= 6.0 * 6.0
    ensures band == Light2gTo4g <==> 2.0 * 2.0 < maxSquared <= 4.0 * 4.0
    ensures band == MinimalManeuvering <==> maxSquared <= 2.0 * 2.0
  {
    if maxSquared > 10.0 * 10.0 then Extreme10gPlus
    else if maxSquared > 8.0 * 8.0 then Extreme8gTo10g
    else if maxSquared > 6.0 * 6.0 then High6gTo8g
    else if maxSquared > 4.0 * 4.0 then Moderate4gTo6g
    else if maxSquared > 2.0 * 2.0 then Light2gTo4g
    else MinimalManeuvering
  }

  /** The square of `max_g` (0 when `calculate_g_forces` reports 0). */
  datatype GForceMetrics = GForceMetrics(maxLoadSquared: real)

  /** What `calculate_g_forces` returns. */
  function GForces(track: seq<Sample>): (r: Tagged<GForceMetrics>)
    ensures r.tags == [] <==> |track| < 3 || forall i :: 0 <= i < |track| - 1 ==> Abs(HeadingDeltas(track)[i]) <= 0.1
    ensures r.tags == [] ==> r.metrics.maxLoadSquared == 0.0
    ensures r.tags != [] ==> r.metrics.maxLoadSquared >= 1.0 && r.tags == [GForceBand(r.metrics.maxLoadSquared)]
  {
    if |track| < 3 then Tagged([], GForceMetrics(0.0))
    else
      var deltas := HeadingDeltas(track);
      var loads := Loads(deltas, Speeds(track), |deltas|);
      if loads == [] then Tagged([], GForceMetrics(0.0))
      else
        var max := Max(loads);
        Tagged([GForceBand(max)], GForceMetrics(max))
  }

  /** The loop of `calculate_g_forces`: the load factor of every heading change above 0.1 degrees. */
  method LoadFactors(changes: seq<real>, speeds: seq<real>) returns (gForces: seq<real>)
    requires |changes| <= |speeds|
    ensures gForces == Loads(changes, speeds, |changes|)
  {
    gForces := [];
    var i := 0;
    while i < |changes|
      invariant 0 <= i <= |changes|
      invariant gForces == Loads(changes, speeds, i)
    {
      if Abs(changes[i]) > 0.1 {
        var headingRate := Abs(changes[i]) * PI / 180.0 / DT;
        // i < |speeds| always holds here: the fallback to the last speed in `calculate_g_forces` is never taken
        var v := speeds[i] * KNOT;
        var lateralAccel := v * headingRate;
        var gForce := lateralAccel / GRAVITY;
        LoadSteps(changes[i], speeds[i], headingRate, v, lateralAccel, gForce);
        gForces := gForces + [1.0 + gForce * gForce];
      }
      i := i + 1;
    }
  }

  /** `calculate_g_forces` */
  method CalculateGForces(track: seq<Sample>) returns (r: Tagged<GForceMetrics>)
    ensures r == GForces(track)
  {
    if |track| < 3 {
      return Tagged([], GForceMetrics(0.0));
    }
    var gForces := LoadFactors(HeadingDeltas(track), Speeds(track));
    if gForces == [] {
      return Tagged([], GForceMetrics(0.0));
    }
    var maxG := Max(gForces);
    var tag: Tag;
    if maxG > 10.0 * 10.0 {
      tag := Extreme10gPlus;
    } else if maxG > 8.0 * 8.0 {
      tag := Extreme8gTo10g;
    } else if maxG > 6.0 * 6.0 {
      tag := High6gTo8g;
    } else if maxG > 4.0 * 4.0 {
      tag := Moderate4gTo6g;
    } else if maxG > 2.0 * 2.0 {
      tag := Light2gTo4g;
    } else {
      tag := MinimalManeuvering;
    }
    r := Tagged([tag], GForceMetrics(maxG));
  }

  /** The largest load factor is that of some change above 0.1 degrees, and bounds all of them. */
  lemma MaxOfLoads(deltas: seq<real>, speeds: seq<real>)
    requires |deltas| <= |speeds|
    requires Loads(deltas, speeds, |deltas|) != []
    ensures var m := Max(Loads(deltas, speeds, |deltas|));
      && (exists i :: 0 <= i < |deltas| && Abs(deltas[i]) > 0.1 && m == LoadSquared(deltas[i], speeds[i]))
      && (forall i :: 0 <= i < |deltas| && Abs(deltas[i]) > 0.1 ==> LoadSquared(deltas[i], speeds[i]) <= m)
  {
    var loads := Loads(deltas, speeds, |deltas|);
    var m := Max(loads);
    assert exists i :: 0 <= i < |deltas| && Abs(deltas[i]) > 0.1 && m == LoadSquared(deltas[i], speeds[i]) by {
      LoadsFromChanges(deltas, speeds, |deltas|);
      var j :| 0 <= j < |loads| && loads[j] == m;
      assert exists i :: 0 <= i < |deltas| && Abs(deltas[i]) > 0.1 && loads[j] == LoadSquared(deltas[i], speeds[i]);
    }
    forall i | 0 <= i < |deltas| && Abs(deltas[i]) > 0.1
      ensures LoadSquared(deltas[i], speeds[i]) <= m
    {
      LoadsCoverChanges(deltas, speeds, |deltas|);
      assert LoadSquared(deltas[i], speeds[i]) in loads;
    }
  }

  /**
   * `max_g` is the largest load factor: that of some change of heading above
   * 0.1 degrees, flown at the speed of the sample before it, and no such
   * change has a larger one.
   */
  lemma MaxLoadOfTrack(track: seq<Sample>)
    requires GForces(track).tags != []
    ensures var m, deltas := GForces(track).metrics.maxLoadSquared, HeadingDeltas(track);
      && (exists i :: 0 <= i < |track| - 1 && Abs(deltas[i]) > 0.1 && m == LoadSquared(deltas[i], track[i].speed))
      && (forall i :: 0 <= i < |track| - 1 && Abs(deltas[i]) > 0.1 ==> LoadSquared(deltas[i], track[i].speed) <= m)
  {
    var deltas, speeds := HeadingDeltas(track), Speeds(track);
    assert GForces(track).metrics.maxLoadSquared == Max(Loads(deltas, speeds, |deltas|));
    MaxOfLoads(deltas, speeds);
  }

  /** A track that holds its heading gets no g-force tag and a `max_g` of 0. */
  lemma SteadyHeadingHasNoLoad(track: seq<Sample>, h: real)
    requires forall i :: 0 <= i < |track| ==> track[i].heading == h
    ensures GForces(track).tags == [] && GForces(track).metrics.maxLoadSquared == 0.0
  {
    var deltas := HeadingDeltas(track);
    forall i | 0 <= i < |track| - 1
      ensures Abs(deltas[i]) <= 0.1
    {
      assert track[i + 1].heading - track[i].heading == 0.0;
    }
  }

  /** Flying the same turn faster never lowers the load factor. */
  lemma LoadGrowsWithSpeed(delta: real, v: real, v': real)
    requires 0.0 <= v <= v'
    ensures LoadSquared(delta, v) <= LoadSquared(delta, v')
  {
    var c := KNOT * (Abs(delta) * PI / 180.0 / DT) / GRAVITY;
    var g, g' := LateralG(delta, v), LateralG(delta, v');
    assert g == v * c && g' == v' * c;
    assert 0.0 <= g <= g' by {
      assert c >= 0.0;
      assert v * c <= v' * c;
    }
    assert g * g <= g' * g' by {
      assert g * g <= g * g';
      assert g * g' <= g' * g';
    }
  }

  // ------------------------------------------------------------ linearity

  /** The square of `heading_std`, and `max_turn` when `calculate_linearity` reports it. */
  datatype LinearityMetrics = LinearityMetrics(headingVariance: real, maxTurn: Option<real>)

  /** The path shape of a standard deviation of heading changes below 5, below 15, or above. */
  function PathShape(variance: real): (r: seq<Tag>)
    ensures |r| >= 1 && r[0].IsPathShape() && forall i :: 1 <= i < |r| ==> !r[i].IsPathShape()
    ensures (LinearPath in r) == (StraightFlight in r) == (variance < 5.0 * 5.0)
    ensures MostlyLinear in r <==> 5.0 * 5.0 <= variance < 15.0 * 15.0
    ensures CurvedPath in r <==> 15.0 * 15.0 <= variance
    ensures forall i :: 0 <= i < |r| ==> r[i].IsPathShape() || r[i] == StraightFlight
  {
    if variance < 5.0 * 5.0 then [LinearPath, StraightFlight]
    else if variance < 15.0 * 15.0 then [MostlyLinear]
    else [CurvedPath]
  }

  /** `sharp_turns` above 90 degrees, else `moderate_turns` above 45. */
  function TurnTags(maxTurn: real): (r: seq<Tag>)
    ensures SharpTurns in r <==> maxTurn > 90.0
    ensures ModerateTurns in r <==> 45.0 < maxTurn <= 90.0
    ensures forall i :: 0 <= i < |r| ==> r[i] == SharpTurns || r[i] == ModerateTurns
  {
    if maxTurn > 90.0 then [SharpTurns]
    else if maxTurn > 45.0 then [ModerateTurns]
    else []
  }

  /** The linearity tags of a heading-change variance and the largest absolute change. */
  function LinearityTags(variance: real, maxTurn: real): (r: seq<Tag>)
  {
    PathShape(variance) + (if variance > 30.0 * 30.0 then [SerpentinePattern] else []) + TurnTags(maxTurn)
  }

  /** The path shape comes first and no other tag is a path shape. */
  lemma LinearityTagsShapeFirst(variance: real, maxTurn: real)
    ensures var tags := LinearityTags(variance, maxTurn);
      |tags| >= 1 && tags[0].IsPathShape() && forall t :: t in tags[1..] ==> !t.IsPathShape()
  {
    var shape := PathShape(variance);
    var pattern: seq<Tag> := if variance > 30.0 * 30.0 then [SerpentinePattern] else [];
    var turns := TurnTags(maxTurn);
    assert (shape + pattern + turns)[1..] == shape[1..] + pattern + turns;
    forall t | t in shape[1..]
      ensures !t.IsPathShape()
    {
      var i :| 0 <= i < |shape[1..]| && shape[1..][i] == t;
      assert shape[i + 1] == t;
    }
  }

  /**
   * Exactly one of `linear_path`, `mostly_linear` and `curved_path`, first;
   * `straight_flight` comes with `linear_path`; `serpentine_pattern` only
   * with `curved_path`; never both kinds of turn.
   */
  lemma LinearityTagClasses(variance: real, maxTurn: real)
    ensures var tags := LinearityTags(variance, maxTurn);
      && |tags| >= 1 && tags[0].IsPathShape() && (forall t :: t in tags[1..] ==> !t.IsPathShape())
      && (LinearPath in tags <==> StraightFlight in tags)
      && (SerpentinePattern in tags ==> CurvedPath in tags)
      && !(SharpTurns in tags && ModerateTurns in tags)
      && (SharpTurns in tags <==> maxTurn > 90.0)
  {
    LinearityTagsShapeFirst(variance, maxTurn);
    LinearityTagsShape(variance, maxTurn);
    LinearityTagsTurns(variance, maxTurn);
  }

  lemma LinearityTagsShape(variance: real, maxTurn: real)
    ensures var tags := LinearityTags(variance, maxTurn);
      (LinearPath in tags <==> StraightFlight in tags) && (SerpentinePattern in tags ==> CurvedPath in tags)
  {
    var shape := PathShape(variance);
    var pattern: seq<Tag> := if variance > 30.0 * 30.0 then [SerpentinePattern] else [];
    var turns := TurnTags(maxTurn);
    assert forall t :: t in shape + pattern + turns <==> t in shape || t in pattern || t in turns;
  }

  lemma LinearityTagsTurns(variance: real, maxTurn: real)
    ensures var tags := LinearityTags(variance, maxTurn);
      !(SharpTurns in tags && ModerateTurns in tags) && (SharpTurns in tags <==> maxTurn > 90.0)
  {
    var shape := PathShape(variance);
    var pattern: seq<Tag> := if variance > 30.0 * 30.0 then [SerpentinePattern] else [];
    var turns := TurnTags(maxTurn);
    assert SharpTurns !in shape + pattern && ModerateTurns !in shape + pattern;
    assert forall t :: t in shape + pattern + turns <==> t in shape + pattern || t in turns;
  }

  /** What `calculate_linearity` returns. */
  function Linearity(track: seq<Sample>): (r: Tagged<LinearityMetrics>)
    ensures |track| < 3 ==> r.tags == [] && r.metrics == LinearityMetrics(0.0, None)
    ensures |track| >= 3 ==> r.metrics.maxTurn.Some? && r.metrics.headingVariance == Variance(HeadingDeltas(track))
    ensures |track| >= 3 ==> r.tags == LinearityTags(r.metrics.headingVariance, r.metrics.maxTurn.value)
    ensures r.metrics.headingVariance >= 0.0
  {
    if |track| < 3 then Tagged([], LinearityMetrics(0.0, None))
    else
      var changes := HeadingDeltas(track);
      var variance := Variance(changes);
      var maxTurn := Max(AbsAll(changes));
      Tagged(LinearityTags(variance, maxTurn), LinearityMetrics(variance, Some(maxTurn)))
  }

  /** `max_turn` is the largest absolute change of heading. */
  lemma MaxTurnOfTrack(track: seq<Sample>)
    requires |track| >= 3
    ensures var m := Linearity(track).metrics.maxTurn.value;
      && (exists i :: 0 <= i < |track| - 1 && Abs(HeadingDeltas(track)[i]) == m)
      && (forall i :: 0 <= i < |track| - 1 ==> Abs(HeadingDeltas(track)[i]) <= m)
  {
    var changes := HeadingDeltas(track);
    var m := Max(AbsAll(changes));
    var i :| 0 <= i < |changes| && AbsAll(changes)[i] == m;
    assert Abs(changes[i]) == m;
    forall j | 0 <= j < |track| - 1
      ensures Abs(changes[j]) <= m
    {
      assert AbsAll(changes)[j] <= m;
    }
  }

  /**
   * A track of three or more samples gets exactly one path shape, and
   * `sharp_turns` exactly when some change of heading exceeds 90 degrees.
   */
  lemma LinearityClasses(track: seq<Sample>)
    requires |track| >= 3
    ensures var tags := Linearity(track).tags;
      && |tags| >= 1 && tags[0].IsPathShape() && (forall t :: t in tags[1..] ==> !t.IsPathShape())
      && (LinearPath in tags <==> StraightFlight in tags)
      && (SerpentinePattern in tags ==> CurvedPath in tags)
      && !(SharpTurns in tags && ModerateTurns in tags)
      && (SharpTurns in tags <==> exists i :: 0 <= i < |track| - 1 && Abs(HeadingDeltas(track)[i]) > 90.0)
  {
    var metrics := Linearity(track).metrics;
    LinearityTagClasses(metrics.headingVariance, metrics.maxTurn.value);
    MaxTurnOfTrack(track);
  }

  /** Between compass headings no turn exceeds 180 degrees. */
  lemma MaxTurnAtMostHalfTurn(track: seq<Sample>)
    requires |track| >= 3 && forall i :: 0 <= i < |track| ==> IsHeading(track[i].heading)
    ensures Linearity(track).metrics.maxTurn.value <= 180.0
  {
    DeltasWithinHalfTurn(track);
    MaxTurnOfTrack(track);
  }

  // ------------------------------------------------------------- altitude

  /** `elevation_change`, and `avg_elevation` when `calculate_altitude_behavior` reports it. */
  datatype AltitudeMetrics = AltitudeMetrics(elevationChange: real, avgElevation: Option<real>)

  /** The band of an average elevation in feet; each bound belongs to the band below it. */
  function AltitudeBand(avg: real): (band: Tag)
    ensures band.IsAltitudeBand()
    ensures band == HighAltitude <==> avg > 40000.0
    ensures band == CruiseAltitude <==> 25000.0 < avg <= 40000.0
    ensures band == MediumAltitude <==> 10000.0 < avg <= 25000.0
    ensures band == LowAltitude <==> avg <= 10000.0
  {
    if avg > 40000.0 then HighAltitude
    else if avg > 25000.0 then CruiseAltitude
    else if avg > 10000.0 then MediumAltitude
    else LowAltitude
  }

  /** `level_flight` below a 1000-foot spread, else `large_altitude_change` above 20000. */
  function ChangePattern(change: real): (r: seq<Tag>)
    ensures LevelFlight in r <==> change < 1000.0
    ensures LargeAltitudeChange in r <==> change > 20000.0
    ensures forall i :: 0 <= i < |r| ==> r[i] == LevelFlight || r[i] == LargeAltitudeChange
  {
    if change < 1000.0 then [LevelFlight]
    else if change > 20000.0 then [LargeAltitudeChange]
    else []
  }

  /** `climbing` above a mean climb of 100 feet per sample, `descending` below -100. */
  function Direction(meanClimb: real): (r: seq<Tag>)
    ensures Climbing in r <==> meanClimb > 100.0
    ensures Descending in r <==> meanClimb < -100.0
    ensures forall i :: 0 <= i < |r| ==> r[i] == Climbing || r[i] == Descending
  {
    if meanClimb > 100.0 then [Climbing]
    else if meanClimb < -100.0 then [Descending]
    else []
  }

  /** The altitude tags of an average elevation, its spread and the mean climb per sample. */
  function AltitudeTags(avg: real, change: real, meanClimb: real): seq<Tag> {
    [AltitudeBand(avg)] + ChangePattern(change) + Direction(meanClimb)
  }

  /** The altitude band comes first and no other tag is a band. */
  lemma AltitudeTagsBandFirst(avg: real, change: real, meanClimb: real)
    ensures var tags := AltitudeTags(avg, change, meanClimb);
      tags[0].IsAltitudeBand() && forall t :: t in tags[1..] ==> !t.IsAltitudeBand()
  {
    var pattern, direction := ChangePattern(change), Direction(meanClimb);
    assert ([AltitudeBand(avg)] + pattern + direction)[1..] == pattern + direction;
  }

  /**
   * Exactly one altitude band, first; never both `level_flight` and
   * `large_altitude_change`; `climbing` and `descending` as the mean climb says.
   */
  lemma AltitudeTagClasses(avg: real, change: real, meanClimb: real)
    ensures var tags := AltitudeTags(avg, change, meanClimb);
      && tags[0].IsAltitudeBand() && (forall t :: t in tags[1..] ==> !t.IsAltitudeBand())
      && !(LevelFlight in tags && LargeAltitudeChange in tags)
      && (Climbing in tags <==> meanClimb > 100.0)
      && (Descending in tags <==> meanClimb < -100.0)
  {
    AltitudeTagsBandFirst(avg, change, meanClimb);
    AltitudeTagsChange(avg, change, meanClimb);
    AltitudeTagsDirection(avg, change, meanClimb);
  }

  lemma AltitudeTagsChange(avg: real, change: real, meanClimb: real)
    ensures var tags := AltitudeTags(avg, change, meanClimb);
      !(LevelFlight in tags && LargeAltitudeChange in tags)
  {
    var band, pattern, direction := AltitudeBand(avg), ChangePattern(change), Direction(meanClimb);
    assert forall t :: t in [band] + pattern + direction <==> t == band || t in pattern || t in direction;
  }

  lemma AltitudeTagsDirection(avg: real, change: real, meanClimb: real)
    ensures var tags := AltitudeTags(avg, change, meanClimb);
      (Climbing in tags <==> meanClimb > 100.0) && (Descending in tags <==> meanClimb < -100.0)
  {
    var band, pattern, direction := AltitudeBand(avg), ChangePattern(change), Direction(meanClimb);
    assert forall t :: t in [band] + pattern + direction <==> t == band || t in pattern || t in direction;
  }

  /** What `calculate_altitude_behavior` returns. */
  function Altitude(track: seq<Sample>): (r: Tagged<AltitudeMetrics>)
    ensures |track| < 2 ==> r.tags == [] && r.metrics == AltitudeMetrics(0.0, None)
    ensures |track| >= 2 ==> r.metrics == AltitudeMetrics(Max(Elevations(track)) - Min(Elevations(track)),
                                                          Some(Mean(Elevations(track))))
    ensures |track| >= 2 ==> r.metrics.elevationChange >= 0.0
    ensures |track| >= 2 ==> r.tags == AltitudeTags(r.metrics.avgElevation.value, r.metrics.elevationChange,
                                                     Mean(Diff(Elevations(track))))
  {
    if |track| < 2 then Tagged([], AltitudeMetrics(0.0, None))
    else
      var elevations := Elevations(track);
      var change := Max(elevations) - Min(elevations);
      var avg := Mean(elevations);
      Tagged(AltitudeTags(avg, change, Mean(Diff(elevations))), AltitudeMetrics(change, Some(avg)))
  }

  /** The mean climb per sample telescopes to the overall rise over the number of intervals. */
  lemma MeanClimb(xs: seq<real>)
    requires |xs| >= 2
    ensures var rise, n := xs[|xs| - 1] - xs[0], (|xs| - 1) as real;
      && (Mean(Diff(xs)) > 100.0 <==> rise > 100.0 * n)
      && (Mean(Diff(xs)) < -100.0 <==> rise < -100.0 * n)
  {
    var rise, n := xs[|xs| - 1] - xs[0], (|xs| - 1) as real;
    SumDiff(xs);
    assert Mean(Diff(xs)) == rise / n;
    DivCompare(rise, n, 100.0);
    DivCompare(rise, n, -100.0);
  }

  /**
   * A track of two or more samples gets exactly one altitude band, never
   * both `level_flight` and `large_altitude_change`, and is `climbing`
   * exactly when it ends more than 100 feet per interval above where it
   * started and `descending` exactly when it ends more than 100 feet per
   * interval below.
   */
  lemma AltitudeClasses(track: seq<Sample>)
    requires |track| >= 2
    ensures var tags := Altitude(track).tags;
      var rise := track[|track| - 1].elevation - track[0].elevation;
      && tags[0].IsAltitudeBand() && (forall t :: t in tags[1..] ==> !t.IsAltitudeBand())
      && !(LevelFlight in tags && LargeAltitudeChange in tags)
      && (Climbing in tags <==> rise > 100.0 * (|track| - 1) as real)
      && (Descending in tags <==> rise < -100.0 * (|track| - 1) as real)
  {
    var metrics := Altitude(track).metrics;
    AltitudeTagClasses(metrics.avgElevation.value, metrics.elevationChange, Mean(Diff(Elevations(track))));
    MeanClimb(Elevations(track));
  }

  // ------------------------------------------------------ engine configuration

  /** The aircraft models the generator recognises, in the order it tries them. */
  const ENGINE_CONFIG: seq<(string, Tag)> := [
    ("Boeing 737", TwinEngine),
    ("Airbus A320", TwinEngine),
    ("Boeing 777", TwinEngine),
    ("Airbus A380", FourEngine),
    ("Boeing 747", FourEngine),
    ("Cessna 172", SingleEngine),
    ("F-16", SingleEngine),
    ("B-52", EightEngine)]

  const TWIN_ENGINE_HINTS: seq<string> := ["737", "a320", "777", "787", "a330"]
  const FOUR_ENGINE_HINTS: seq<string> := ["747", "a380", "a340"]

  /** `str.lower` on ASCII letters. */
  function LowerChar(c: char): char {
    if 'A' <= c <= 'Z' then (c as int + 32) as char else c
  }

  function Lower(s: string): (r: string)
    ensures |r| == |s|
  {
    seq(|s|, i requires 0 <= i < |s| => LowerChar(s[i]))
  }

  predicate OccursAt(hay: string, needle: string, i: nat) {
    i + |needle| <= |hay| && hay[i..i + |needle|] == needle
  }

  /** Python's `needle in hay` on strings. */
  predicate Contains(hay: string, needle: string) {
    exists i: nat | i <= |hay| :: OccursAt(hay, needle, i)
  }

  predicate ModelMatches(entries: seq<(string, Tag)>, i: nat, aircraftType: string)
    requires i < |entries|
  {
    Contains(Lower(aircraftType), Lower(entries[i].0))
  }

  /** The configuration of the first entry whose model occurs in the type, ignoring case. */
  function FirstConfig(entries: seq<(string, Tag)>, aircraftType: string): (r: Option<Tag>)
    ensures r.None? <==> forall i :: 0 <= i < |entries| ==> !ModelMatches(entries, i, aircraftType)
    ensures r.Some? ==> exists i :: 0 <= i < |entries| && ModelMatches(entries, i, aircraftType)
                                    && entries[i].1 == r.value
                                    && forall j :: 0 <= j < i ==> !ModelMatches(entries, j, aircraftType)
  {
    if entries == [] then None
    else if Contains(Lower(aircraftType), Lower(entries[0].0)) then
      assert ModelMatches(entries, 0, aircraftType);
      Some(entries[0].1)
    else
      assert !ModelMatches(entries, 0, aircraftType);
      var rest := FirstConfig(entries[1..], aircraftType);
      forall i | 1 <= i < |entries|
        ensures ModelMatches(entries, i, aircraftType) == ModelMatches(entries[1..], i - 1, aircraftType)
      {
        assert entries[1..][i - 1] == entries[i];
      }
      if rest.None? then
        assert forall i :: 0 <= i < |entries| ==> !ModelMatches(entries, i, aircraftType) by {
          forall i | 0 <= i < |entries|
            ensures !ModelMatches(entries, i, aircraftType)
          {
            if i > 0 {
              assert !ModelMatches(entries[1..], i - 1, aircraftType);
            }
          }
        }
        rest
      else
        var k :| 0 <= k < |entries| - 1 && ModelMatches(entries[1..], k, aircraftType) && entries[1..][k].1 == rest.value
                 && forall j :: 0 <= j < k ==> !ModelMatches(entries[1..], j, aircraftType);
        assert ModelMatches(entries, k + 1, aircraftType);
        rest
  }

  /** Every configuration in the table is a known engine configuration. */
  lemma EngineTableConfigs()
    ensures forall i :: 0 <= i < |ENGINE_CONFIG| ==> ENGINE_CONFIG[i].1.IsEngine() && !ENGINE_CONFIG[i].1.UnknownEngineConfig?
  {
    var configs := seq(|ENGINE_CONFIG|, i requires 0 <= i < |ENGINE_CONFIG| => ENGINE_CONFIG[i].1);
    assert configs == [TwinEngine, TwinEngine, TwinEngine, FourEngine, FourEngine, SingleEngine, SingleEngine, EightEngine];
  }

  predicate AnyHint(hints: seq<string>, aircraftType: string) {
    exists i :: 0 <= i < |hints| && Contains(Lower(aircraftType), hints[i])
  }

  /**
   * The configuration `get_engine_configuration` settles on: the first
   * table entry whose model occurs in the type, else a twin-engine hint,
   * else a four-engine hint, else unknown.
   */
  function EngineTag(aircraftType: string): (t: Tag)
    ensures t.IsEngine()
    ensures FirstConfig(ENGINE_CONFIG, aircraftType).Some? ==> t == FirstConfig(ENGINE_CONFIG, aircraftType).value
    ensures FirstConfig(ENGINE_CONFIG, aircraftType).None? && AnyHint(TWIN_ENGINE_HINTS, aircraftType) ==> t == TwinEngine
    ensures (FirstConfig(ENGINE_CONFIG, aircraftType).None? && !AnyHint(TWIN_ENGINE_HINTS, aircraftType)
             && AnyHint(FOUR_ENGINE_HINTS, aircraftType)) ==> t == FourEngine
    ensures t == UnknownEngineConfig <==>
      FirstConfig(ENGINE_CONFIG, aircraftType).None? && !AnyHint(TWIN_ENGINE_HINTS, aircraftType)
      && !AnyHint(FOUR_ENGINE_HINTS, aircraftType)
  {
    match FirstConfig(ENGINE_CONFIG, aircraftType)
    case Some(config) =>
      EngineTableConfigs();
      config
    case None =>
      if AnyHint(TWIN_ENGINE_HINTS, aircraftType) then TwinEngine
      else if AnyHint(FOUR_ENGINE_HINTS, aircraftType) then FourEngine
      else UnknownEngineConfig
  }

  /** What `get_engine_configuration` returns: one tag, and the `engine_config` it reports. */
  function EngineConfiguration(aircraftType: string): (r: Tagged<string>)
    ensures r.tags == [EngineTag(aircraftType)]
    ensures r.metrics == if r.tags[0] == UnknownEngineConfig then "unknown" else r.tags[0].Name()
  {
    var config := EngineTag(aircraftType);
    Tagged([config], if config == UnknownEngineConfig then "unknown" else config.Name())
  }

  /** A 737 variant is recognised by the first entry of the table. */
  lemma Boeing737Variant()
    ensures EngineConfiguration("Boeing 737-800") == Tagged([TwinEngine], "twin_engine")
  {
    var t := Lower("Boeing 737-800");
    assert OccursAt(t, Lower("Boeing 737"), 0);
    assert ModelMatches(ENGINE_CONFIG, 0, "Boeing 737-800");
  }

  /**
   * A bare "787" is shorter than every model in the table, so no entry
   * matches, and its "787" hint makes it twin-engine.
   */
  lemma Bare787Hint()
    ensures EngineConfiguration("787") == Tagged([TwinEngine], "twin_engine")
  {
    NoModelIn787();
    TwinHintIn787();
  }

  /** Every model in the table is longer than "787", so none occurs in it. */
  lemma NoModelIn787()
    ensures FirstConfig(ENGINE_CONFIG, "787").None?
  {
    assert forall i :: 0 <= i < |ENGINE_CONFIG| ==> |ENGINE_CONFIG[i].0| >= 4;
    forall i | 0 <= i < |ENGINE_CONFIG|
      ensures !ModelMatches(ENGINE_CONFIG, i, "787")
    {
      assert |Lower(ENGINE_CONFIG[i].0)| > |Lower("787")|;
    }
  }

  /** "787" is itself a twin-engine hint. */
  lemma TwinHintIn787()
    ensures AnyHint(TWIN_ENGINE_HINTS, "787")
  {
    assert Lower("787") == "787";
    assert OccursAt("787", TWIN_ENGINE_HINTS[3], 0);
  }

  // ------------------------------------------------------------------ role

  /**
   * The role rules of `classify_aircraft_role` on the metrics they read:
   * the average speed, the square of `max_g`, the square of `heading_std`
   * and `avg_elevation`, which is absent for a single sample and is read
   * only when the track averages under 200 knots.
   */
  function RoleOf(avgSpeed: real, maxG2: real, headingVar: real, avgElevation: Option<real>): (r: Result<seq<Tag>, TagError>)
    ensures r.Err? <==> avgSpeed < 200.0 && avgElevation.None?
    ensures r.Ok? ==> forall i :: 0 <= i < |r.value| ==> r.value[i].IsRole()
    ensures r.Ok? ==> (MilitaryFighterProfile in r.value <==> maxG2 > 5.0 * 5.0 && avgSpeed > 400.0)
    ensures r.Ok? ==> (TacticalManeuvering in r.value <==>
                       !(maxG2 > 5.0 * 5.0 && avgSpeed > 400.0) && maxG2 > 3.0 * 3.0 && headingVar > 20.0 * 20.0)
    ensures r.Ok? ==> (CommercialAirlinerProfile in r.value <==>
                       headingVar < 10.0 * 10.0 && 250.0 < avgSpeed < 500.0 && maxG2 < 2.0 * 2.0)
    ensures r.Ok? ==> (GeneralAviationProfile in r.value <==> avgSpeed < 200.0 && avgElevation.value < 15000.0)
  {
    var fighter :=
      if maxG2 > 5.0 * 5.0 && avgSpeed > 400.0 then [MilitaryFighterProfile]
      else if maxG2 > 3.0 * 3.0 && headingVar > 20.0 * 20.0 then [TacticalManeuvering]
      else [];
    var airliner :=
      if headingVar < 10.0 * 10.0 && 250.0 < avgSpeed < 500.0 && maxG2 < 2.0 * 2.0 then [CommercialAirlinerProfile]
      else [];
    if avgSpeed < 200.0 then
      match avgElevation
      case None => Err(MissingKey("avg_elevation"))
      case Some(elevation) =>
        Ok(fighter + airliner + if elevation < 15000.0 then [GeneralAviationProfile] else [])
    else Ok(fighter + airliner)
  }

  /** The profiles exclude each other as their thresholds say. */
  lemma RolesExclusive(avgSpeed: real, maxG2: real, headingVar: real, avgElevation: Option<real>)
    requires RoleOf(avgSpeed, maxG2, headingVar, avgElevation).Ok?
    ensures var tags := RoleOf(avgSpeed, maxG2, headingVar, avgElevation).value;
      && !(MilitaryFighterProfile in tags && TacticalManeuvering in tags)
      && !(CommercialAirlinerProfile in tags && (MilitaryFighterProfile in tags || TacticalManeuvering in tags))
      && !(CommercialAirlinerProfile in tags && GeneralAviationProfile in tags)
      && !(MilitaryFighterProfile in tags && GeneralAviationProfile in tags)
  {
  }

  /** What `classify_aircraft_role` returns for a track, or the KeyError it raises. */
  function Role(track: seq<Sample>): Result<seq<Tag>, TagError>
    requires track != []
  {
    RoleOf(SpeedTags(track).metrics.avgSpeed, GForces(track).metrics.maxLoadSquared,
           Linearity(track).metrics.headingVariance, Altitude(track).metrics.avgElevation)
  }

  /**
   * The role of a track: the KeyError exactly for a single sample slower than
   * 200 knots, and otherwise the role rules applied to the mean speed, the
   * largest load factor, the variance of the heading changes and the mean
   * elevation of the track; fewer than three samples never make a fighter or
   * a tactical track.
   */
  lemma RoleOfTrack(track: seq<Sample>)
    requires track != []
    ensures var r, avg, g, hv := Role(track), Mean(Speeds(track)), GForces(track).metrics.maxLoadSquared,
                                 Linearity(track).metrics.headingVariance;
      && (r.Err? <==> |track| == 1 && track[0].speed < 200.0)
      && (r.Ok? ==> forall i :: 0 <= i < |r.value| ==> r.value[i].IsRole())
      && (r.Ok? ==> (MilitaryFighterProfile in r.value <==> g > 5.0 * 5.0 && avg > 400.0))
      && (r.Ok? ==> (TacticalManeuvering in r.value <==>
                     !(g > 5.0 * 5.0 && avg > 400.0) && g > 3.0 * 3.0 && hv > 20.0 * 20.0))
      && (r.Ok? ==> (CommercialAirlinerProfile in r.value <==> hv < 10.0 * 10.0 && 250.0 < avg < 500.0 && g < 2.0 * 2.0))
      && (r.Ok? ==> (GeneralAviationProfile in r.value <==> avg < 200.0 && Mean(Elevations(track)) < 15000.0))
      && (r.Ok? && |track| < 3 ==> MilitaryFighterProfile !in r.value && TacticalManeuvering !in r.value)
  {
    RoleInputs(track);
  }

  /** The role of a track is the role rules applied to its own metrics. */
  lemma RoleInputs(track: seq<Sample>)
    requires track != []
    ensures Role(track) == RoleOf(Mean(Speeds(track)), GForces(track).metrics.maxLoadSquared,
                                  Linearity(track).metrics.headingVariance,
                                  if |track| >= 2 then Some(Mean(Elevations(track))) else None)
    ensures |track| < 3 ==> GForces(track).metrics.maxLoadSquared == 0.0
    ensures |track| == 1 ==> Mean(Speeds(track)) == track[0].speed
  {
    assert SpeedTags(track).metrics.avgSpeed == Mean(Speeds(track));
    assert Altitude(track).metrics.avgElevation == if |track| >= 2 then Some(Mean(Elevations(track))) else None;
    if |track| == 1 {
      MeanOfOne(Speeds(track));
    }
  }
}
