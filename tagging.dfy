/**
 * The tables side of `TrackTagGenerator`: the tags of one track, the
 * `ai_generated_tags` column written for every row, and the statistics over
 * the distinct tag strings of that column.
 */
module Tagging {
  import opened Common
  import opened Stats
  import opened Analytics

  /** The columns of one CSV row that the generator reads. */
  datatype Row = Row(trackId: int, trackType: string, aircraftType: string, sample: Sample)

  // ------------------------------------------------------------- sequences

  function CountOf<T(==)>(xs: seq<T>, x: T): (n: nat)
    ensures n <= |xs|
    ensures n == 0 <==> x !in xs
  {
    if xs == [] then 0
    else CountOf(xs[..|xs| - 1], x) + (if xs[|xs| - 1] == x then 1 else 0)
  }

  lemma CountOfSnoc<T>(xs: seq<T>, x: T, y: T)
    ensures CountOf(xs + [x], y) == CountOf(xs, y) + (if x == y then 1 else 0)
  {
    assert (xs + [x])[..|xs|] == xs;
  }

  predicate NoDuplicates<T(==)>(xs: seq<T>) {
    forall i, j :: 0 <= i < j < |xs| ==> xs[i] != xs[j]
  }

  /** `Series.unique()`: each value once, in order of first appearance. */
  function Distinct<T(==, !new)>(xs: seq<T>): (r: seq<T>)
    ensures NoDuplicates(r)
    ensures forall x :: x in r <==> x in xs
  {
    if xs == [] then []
    else
      var init := xs[..|xs| - 1];
      var prior := Distinct(init);
      assert forall x :: x in xs <==> x in init || x == xs[|xs| - 1];
      if xs[|xs| - 1] in prior then prior else prior + [xs[|xs| - 1]]
  }

  lemma DistinctSnoc<T(!new)>(xs: seq<T>, x: T)
    ensures Distinct(xs + [x]) == if x in xs then Distinct(xs) else Distinct(xs) + [x]
  {
    assert (xs + [x])[..|xs|] == xs;
  }

  /** A value that occurs in a list without duplicates occurs once. */
  lemma {:induction false} CountOfNoDuplicates<T>(xs: seq<T>, x: T)
    requires NoDuplicates(xs) && x in xs
    ensures CountOf(xs, x) == 1
    decreases |xs|
  {
    var init := xs[..|xs| - 1];
    if xs[|xs| - 1] != x {
      assert x in init;
      CountOfNoDuplicates(init, x);
    } else {
      assert x !in init;
    }
  }

  lemma LastSplit<T>(xs: seq<T>)
    requires xs != []
    ensures xs == xs[..|xs| - 1] + [xs[|xs| - 1]]
  {
  }

  /** `n` copies of `v`. */
  function Repeat<T>(v: T, n: nat): (r: seq<T>)
    ensures |r| == n && forall i :: 0 <= i < n ==> r[i] == v
  {
    if n == 0 then [] else Repeat(v, n - 1) + [v]
  }

  // ------------------------------------------------------------ join and split

  const SEP: string := "; "

  /** `'; '.join(xs)` */
  function Join(xs: seq<string>): string {
    if xs == [] then "" else if |xs| == 1 then xs[0] else xs[0] + SEP + Join(xs[1..])
  }

  predicate SepAt(s: string, k: nat) {
    k + 2 <= |s| && s[k] == ';' && s[k + 1] == ' '
  }

  predicate HasSep(s: string) {
    exists k: nat | k <= |s| :: SepAt(s, k)
  }

  /** The first `'; '` at or after `i`, or `|s|` when there is none. */
  function FirstSep(s: string, i: nat): (r: nat)
    requires i <= |s|
    ensures i <= r <= |s|
    ensures r < |s| ==> SepAt(s, r)
    ensures forall k :: i <= k < r ==> !SepAt(s, k)
    decreases |s| - i
  {
    if i + 2 > |s| then |s|
    else if s[i] == ';' && s[i + 1] == ' ' then i
    else FirstSep(s, i + 1)
  }

  /** `s.split('; ')` */
  function Split(s: string): (r: seq<string>)
    ensures |r| >= 1
    decreases |s|
  {
    var k := FirstSep(s, 0);
    if k == |s| then [s] else [s[..k]] + Split(s[k + 2..])
  }

  /** The first `'; '` of `x + '; ' + rest` is the one after `x`, when `x` holds none. */
  lemma FirstSepJoined(x: string, rest: string)
    requires !HasSep(x)
    ensures FirstSep(x + SEP + rest, 0) == |x|
  {
    var s := x + SEP + rest;
    forall k | 0 <= k < |x|
      ensures !SepAt(s, k)
    {
      if k + 1 < |x| {
        assert !SepAt(x, k);
        assert s[k] == x[k] && s[k + 1] == x[k + 1];
      } else {
        assert s[k + 1] == ';';
      }
    }
    assert SepAt(s, |x|);
  }

  /** Splitting `x + '; ' + rest` yields `x` and then the pieces of `rest`. */
  lemma SplitCons(x: string, rest: string)
    requires !HasSep(x)
    ensures Split(x + SEP + rest) == [x] + Split(rest)
  {
    var s := x + SEP + rest;
    FirstSepJoined(x, rest);
    assert s[..|x|] == x && s[|x| + 2..] == rest;
  }

  /** Splitting undoes joining, for a nonempty list of strings none of which holds `'; '`. */
  lemma {:induction false} SplitJoin(xs: seq<string>)
    requires xs != [] && forall i :: 0 <= i < |xs| ==> !HasSep(xs[i])
    ensures Split(Join(xs)) == xs
    decreases |xs|
  {
    if |xs| == 1 {
      assert FirstSep(xs[0], 0) == |xs[0]|;
    } else {
      SplitCons(xs[0], Join(xs[1..]));
      SplitJoin(xs[1..]);
      assert xs == [xs[0]] + xs[1..];
    }
  }

  // ---------------------------------------------------------- one track's tags

  function Samples(track: seq<Row>): (r: seq<Sample>)
    ensures |r| == |track| && forall i :: 0 <= i < |r| ==> r[i] == track[i].sample
  {
    seq(|track|, i requires 0 <= i < |track| => track[i].sample)
  }

  function Ids(rows: seq<Row>): (r: seq<int>)
    ensures |r| == |rows| && forall i :: 0 <= i < |r| ==> r[i] == rows[i].trackId
  {
    seq(|rows|, i requires 0 <= i < |rows| => rows[i].trackId)
  }

  /** `df[df['track_id'] == id]`: the rows of one track, in file order. */
  function TrackRows(rows: seq<Row>, id: int): (r: seq<Row>)
    ensures |r| == CountOf(Ids(rows), id)
    ensures forall i :: 0 <= i < |r| ==> r[i].trackId == id && r[i] in rows
  {
    if rows == [] then []
    else
      var init := rows[..|rows| - 1];
      assert Ids(rows) == Ids(init) + [rows[|rows| - 1].trackId];
      CountOfSnoc(Ids(init), rows[|rows| - 1].trackId, id);
      TrackRows(init, id) + if rows[|rows| - 1].trackId == id then [rows[|rows| - 1]] else []
  }

  /**
   * The rows of a track keep the order of the file: the k-th row of the file,
   * when it belongs to the track, is the one after as many of the track's rows
   * as come before it.
   */
  lemma {:induction false} TrackRowsInOrder(rows: seq<Row>, id: int)
    ensures forall k :: 0 <= k < |rows| && rows[k].trackId == id ==>
      CountOf(Ids(rows[..k]), id) < |TrackRows(rows, id)|
      && TrackRows(rows, id)[CountOf(Ids(rows[..k]), id)] == rows[k]
    decreases |rows|
  {
    if rows != [] {
      var n := |rows| - 1;
      var init := rows[..n];
      var r, prior := TrackRows(rows, id), TrackRows(init, id);
      assert r == prior + if rows[n].trackId == id then [rows[n]] else [];
      forall k | 0 <= k < |rows| && rows[k].trackId == id
        ensures CountOf(Ids(rows[..k]), id) < |r| && r[CountOf(Ids(rows[..k]), id)] == rows[k]
      {
        var c := CountOf(Ids(rows[..k]), id);
        if k < n {
          assert rows[..k] == init[..k];
          TrackRowsInOrder(init, id);
          assert c < |prior| && prior[c] == init[k];
          assert r[c] == prior[c];
        } else {
          assert rows[..k] == init;
          assert c == |prior|;
        }
      }
    }
  }

  /** The calculator each tag comes from, in the order the tags of a track are listed. */
  function Stage(t: Tag): nat {
    match t
    case VerySlowMoving | SlowMoving | ModerateSpeed | FastMoving | VeryFastMoving
       | VariableSpeed | ConstantSpeed | SupersonicCapable => 0
    case Extreme10gPlus | Extreme8gTo10g | High6gTo8g | Moderate4gTo6g | Light2gTo4g | MinimalManeuvering => 1
    case LinearPath | StraightFlight | MostlyLinear | CurvedPath | SerpentinePattern | SharpTurns | ModerateTurns => 2
    case HighAltitude | CruiseAltitude | MediumAltitude | LowAltitude
       | LevelFlight | LargeAltitudeChange | Climbing | Descending => 3
    case TwinEngine | FourEngine | SingleEngine | EightEngine | UnknownEngineConfig => 4
    case MilitaryFighterProfile | TacticalManeuvering | CommercialAirlinerProfile | GeneralAviationProfile => 5
    case TrackOfType(_) => 6
  }

  predicate AllAtStage(tags: seq<Tag>, n: nat) {
    forall i :: 0 <= i < |tags| ==> Stage(tags[i]) == n
  }

  /** Each tag comes from the same calculator as the one before it or from a later one. */
  predicate InStageOrder(tags: seq<Tag>) {
    forall i :: 0 < i < |tags| ==> Stage(tags[i - 1]) <= Stage(tags[i])
  }

  /** What `generate_tags_for_track` returns for the rows of one track, or what it raises. */
  function TrackTags(track: seq<Row>): (r: Result<seq<Tag>, TagError>)
  {
    if track == [] then Ok([])
    else
      var samples := Samples(track);
      var role :- Role(samples);
      Ok(SpeedTags(samples).tags + GForces(samples).tags + Linearity(samples).tags + Altitude(samples).tags
         + EngineConfiguration(track[0].aircraftType).tags + role + [TrackOfType(track[0].trackType)])
  }

  /** `generate_tags_for_track(id)` */
  function TagsForTrack(rows: seq<Row>, id: int): Result<seq<Tag>, TagError> {
    TrackTags(TrackRows(rows, id))
  }

  lemma SpeedStages(samples: seq<Sample>)
    requires samples != []
    ensures AllAtStage(SpeedTags(samples).tags, 0)
  {
  }

  lemma GForceStages(samples: seq<Sample>)
    ensures AllAtStage(GForces(samples).tags, 1)
  {
  }

  lemma LinearityStages(variance: real, maxTurn: real)
    ensures AllAtStage(LinearityTags(variance, maxTurn), 2)
  {
  }

  lemma AllAtStageConcat(a: seq<Tag>, b: seq<Tag>, n: nat)
    requires AllAtStage(a, n) && AllAtStage(b, n)
    ensures AllAtStage(a + b, n)
  {
  }

  lemma AltitudeStages(avg: real, change: real, meanClimb: real)
    ensures AllAtStage(AltitudeTags(avg, change, meanClimb), 3)
  {
    var band, pattern, direction := [AltitudeBand(avg)], ChangePattern(change), Direction(meanClimb);
    AllAtStageConcat(band, pattern, 3);
    AllAtStageConcat(band + pattern, direction, 3);
  }

  lemma RoleStages(avgSpeed: real, maxG2: real, headingVar: real, avgElevation: Option<real>)
    requires RoleOf(avgSpeed, maxG2, headingVar, avgElevation).Ok?
    ensures AllAtStage(RoleOf(avgSpeed, maxG2, headingVar, avgElevation).value, 5)
  {
  }

  lemma LinearityTrackStages(samples: seq<Sample>)
    ensures AllAtStage(Linearity(samples).tags, 2)
  {
    if |samples| >= 3 {
      var m := Linearity(samples).metrics;
      LinearityStages(m.headingVariance, m.maxTurn.value);
    }
  }

  lemma AltitudeTrackStages(samples: seq<Sample>)
    ensures AllAtStage(Altitude(samples).tags, 3)
  {
    if |samples| >= 2 {
      var m := Altitude(samples).metrics;
      AltitudeStages(m.avgElevation.value, m.elevationChange, Mean(Diff(Elevations(samples))));
    }
  }

  lemma EngineStages(aircraftType: string)
    ensures AllAtStage(EngineConfiguration(aircraftType).tags, 4)
  {
    EngineStage(EngineConfiguration(aircraftType).tags[0]);
  }

  lemma RoleTrackStages(samples: seq<Sample>)
    requires samples != [] && Role(samples).Ok?
    ensures AllAtStage(Role(samples).value, 5)
  {
    RoleStages(SpeedTags(samples).metrics.avgSpeed, GForces(samples).metrics.maxLoadSquared,
               Linearity(samples).metrics.headingVariance, Altitude(samples).metrics.avgElevation);
  }

  lemma ConcatStageOrder(a: seq<Tag>, b: seq<Tag>, n: nat)
    requires a != [] && InStageOrder(a) && Stage(a[|a| - 1]) <= n && AllAtStage(b, n)
    ensures InStageOrder(a + b) && Stage((a + b)[|a + b| - 1]) <= n
  {
  }

  lemma ConcatStagesBelow(a: seq<Tag>, b: seq<Tag>, n: nat)
    requires forall i :: 0 <= i < |a| ==> Stage(a[i]) < n
    requires forall i :: 0 <= i < |b| ==> Stage(b[i]) < n
    ensures forall i :: 0 <= i < |a + b| ==> Stage((a + b)[i]) < n
  {
  }

  lemma FrontStaged(speed: seq<Tag>, g: seq<Tag>, lin: seq<Tag>, alt: seq<Tag>)
    requires speed != [] && AllAtStage(speed, 0) && AllAtStage(g, 1) && AllAtStage(lin, 2) && AllAtStage(alt, 3)
    ensures var front := speed + g + lin + alt;
      front != [] && InStageOrder(front) && Stage(front[|front| - 1]) <= 3
  {
    ConcatStageOrder(speed, g, 1);
    ConcatStageOrder(speed + g, lin, 2);
    ConcatStageOrder(speed + g + lin, alt, 3);
  }

  lemma BackStaged(front: seq<Tag>, engine: seq<Tag>, role: seq<Tag>, last: Tag)
    requires front != [] && InStageOrder(front) && Stage(front[|front| - 1]) <= 3
    requires AllAtStage(engine, 4) && AllAtStage(role, 5) && last.TrackOfType?
    ensures InStageOrder(front + engine + role + [last])
  {
    ConcatStageOrder(front, engine, 4);
    ConcatStageOrder(front + engine, role, 5);
    ConcatStageOrder(front + engine + role, [last], 6);
  }

  /** Seven runs of tags, one per calculator, concatenated in calculator order. */
  lemma StagedConcat(speed: seq<Tag>, g: seq<Tag>, lin: seq<Tag>, alt: seq<Tag>, engine: seq<Tag>, role: seq<Tag>, last: Tag)
    requires speed != [] && AllAtStage(speed, 0) && AllAtStage(g, 1) && AllAtStage(lin, 2) && AllAtStage(alt, 3)
    requires AllAtStage(engine, 4) && AllAtStage(role, 5) && last.TrackOfType?
    ensures InStageOrder(speed + g + lin + alt + engine + role + [last])
  {
    FrontStaged(speed, g, lin, alt);
    BackStaged(speed + g + lin + alt, engine, role, last);
  }

  lemma FrontBeforeEngine(speed: seq<Tag>, g: seq<Tag>, lin: seq<Tag>, alt: seq<Tag>)
    requires AllAtStage(speed, 0) && AllAtStage(g, 1) && AllAtStage(lin, 2) && AllAtStage(alt, 3)
    ensures forall i :: 0 <= i < |speed + g + lin + alt| ==> Stage((speed + g + lin + alt)[i]) < 4
  {
    ConcatStagesBelow(speed, g, 4);
    ConcatStagesBelow(speed + g, lin, 4);
    ConcatStagesBelow(speed + g + lin, alt, 4);
  }

  /** Between tags of earlier calculators and tags of later ones, a single engine tag is the only one. */
  lemma OneEngine(front: seq<Tag>, engine: Tag, role: seq<Tag>, last: Tag)
    requires forall i :: 0 <= i < |front| ==> Stage(front[i]) < 4
    requires engine.IsEngine() && AllAtStage(role, 5) && last.TrackOfType?
    ensures var tags := front + [engine] + role + [last];
      tags[|front|] == engine && forall j :: 0 <= j < |tags| && j != |front| ==> !tags[j].IsEngine()
  {
    var tags := front + [engine] + role + [last];
    forall j | 0 <= j < |tags| && j != |front|
      ensures !tags[j].IsEngine()
    {
      EngineStage(tags[j]);
      if j < |front| {
        assert tags[j] == front[j];
      } else if j < |tags| - 1 {
        assert tags[j] == role[j - |front| - 1];
      }
    }
  }

  lemma EngineStage(t: Tag)
    ensures t.IsEngine() <==> Stage(t) == 4
  {
  }

  /**
   * The tags of a track come calculator by calculator: speed, g-force,
   * linearity, altitude, engine configuration, role, and last the
   * `<track_type>_track` tag of the track's first row; the first is the
   * speed band of its average speed.
   */
  lemma TrackTagsOrdered(track: seq<Row>)
    requires track != [] && TrackTags(track).Ok?
    ensures var tags := TrackTags(track).value;
      && InStageOrder(tags)
      && tags[0] == SpeedBand(SpeedTags(Samples(track)).metrics.avgSpeed)
      && tags[|tags| - 1] == TrackOfType(track[0].trackType)
  {
    var samples := Samples(track);
    var speed, g, lin, alt := SpeedTags(samples).tags, GForces(samples).tags, Linearity(samples).tags, Altitude(samples).tags;
    var engine, role, last := EngineConfiguration(track[0].aircraftType).tags, Role(samples).value, TrackOfType(track[0].trackType);
    assert InStageOrder(speed + g + lin + alt + engine + role + [last]) by {
      SpeedStages(samples);
      GForceStages(samples);
      LinearityTrackStages(samples);
      AltitudeTrackStages(samples);
      RoleTrackStages(samples);
      EngineStages(track[0].aircraftType);
      StagedConcat(speed, g, lin, alt, engine, role, last);
    }
    assert TrackTags(track).value == speed + g + lin + alt + engine + role + [last];
  }

  /** Exactly one of the tags of a track is an engine configuration. */
  lemma TrackTagsOneEngine(track: seq<Row>)
    requires track != [] && TrackTags(track).Ok?
    ensures var tags := TrackTags(track).value;
      exists k :: 0 <= k < |tags| && tags[k].IsEngine() && forall j :: 0 <= j < |tags| && j != k ==> !tags[j].IsEngine()
  {
    var samples := Samples(track);
    var speed, g, lin, alt := SpeedTags(samples).tags, GForces(samples).tags, Linearity(samples).tags, Altitude(samples).tags;
    var engine := EngineConfiguration(track[0].aircraftType).tags;
    SpeedStages(samples);
    GForceStages(samples);
    LinearityTrackStages(samples);
    AltitudeTrackStages(samples);
    RoleTrackStages(samples);
    FrontBeforeEngine(speed, g, lin, alt);
    OneEngine(speed + g + lin + alt, engine[0], Role(samples).value, TrackOfType(track[0].trackType));
    assert engine == [engine[0]];
  }

  /** The text of a tag list as written to the column. */
  function TagText(tags: seq<Tag>): string {
    Join(seq(|tags|, i requires 0 <= i < |tags| => tags[i].Name()))
  }

  // ------------------------------------------------------------- the column

  /**
   * The column `generate_all_tags` builds: for each track id in `order`,
   * one copy of its text per row of that track.
   */
  function ColumnOf(ids: seq<int>, order: seq<int>, textOf: int -> string): (r: seq<string>)
  {
    if order == [] then []
    else ColumnOf(ids, order[..|order| - 1], textOf) + Repeat(textOf(order[|order| - 1]), CountOf(ids, order[|order| - 1]))
  }

  /** The rows of each track are contiguous: an id that differs from the row before it is new. */
  predicate Contiguous(ids: seq<int>) {
    forall j :: 0 < j < |ids| && ids[j] != ids[j - 1] ==> ids[j] !in ids[..j]
  }

  lemma ContiguousInit(ids: seq<int>)
    requires ids != [] && Contiguous(ids)
    ensures Contiguous(ids[..|ids| - 1])
  {
    var init := ids[..|ids| - 1];
    forall j | 0 < j < |init| && init[j] != init[j - 1]
      ensures init[j] !in init[..j]
    {
      assert init[..j] == ids[..j];
    }
  }

  /** A row of a track outside `order` leaves the column for `order` alone. */
  lemma {:induction false} ColumnOfOtherSnoc(ids: seq<int>, x: int, order: seq<int>, textOf: int -> string)
    requires x !in order
    ensures ColumnOf(ids + [x], order, textOf) == ColumnOf(ids, order, textOf)
    decreases |order|
  {
    if order != [] {
      var init, last := order[..|order| - 1], order[|order| - 1];
      assert x !in init;
      ColumnOfOtherSnoc(ids, x, init, textOf);
      CountOfSnoc(ids, x, last);
    }
  }

  lemma {:induction false} ColumnOfLengthSnoc(ids: seq<int>, x: int, order: seq<int>, textOf: int -> string)
    ensures |ColumnOf(ids + [x], order, textOf)| == |ColumnOf(ids, order, textOf)| + CountOf(order, x)
    decreases |order|
  {
    if order != [] {
      var init := order[..|order| - 1];
      ColumnOfLengthSnoc(ids, x, init, textOf);
      CountOfSnoc(ids, x, order[|order| - 1]);
      assert order == init + [order[|order| - 1]];
      CountOfSnoc(init, order[|order| - 1], x);
    }
  }

  /** The column has one entry per row, whatever the order of the rows. */
  lemma {:induction false} ColumnLength(ids: seq<int>, textOf: int -> string)
    ensures |ColumnOf(ids, Distinct(ids), textOf)| == |ids|
    decreases |ids|
  {
    if ids != [] {
      var init, x := ids[..|ids| - 1], ids[|ids| - 1];
      assert ids == init + [x];
      ColumnLength(init, textOf);
      if x in init {
        var d := Distinct(init);
        assert Distinct(ids) == d by { DistinctSnoc(init, x); }
        ColumnOfLengthSnoc(init, x, d, textOf);
        CountOfNoDuplicates(d, x);
      } else {
        ColumnSnocNew(init, x, textOf);
      }
    }
  }

  /** With contiguous ids the last new id is the id of the last row. */
  lemma {:induction false} DistinctLastOfContiguous(ids: seq<int>)
    requires ids != [] && Contiguous(ids)
    ensures Distinct(ids)[|Distinct(ids)| - 1] == ids[|ids| - 1]
    decreases |ids|
  {
    var init, x := ids[..|ids| - 1], ids[|ids| - 1];
    assert ids == init + [x];
    DistinctSnoc(init, x);
    if x in init {
      assert ids[|ids| - 2] == x;
      ContiguousInit(ids);
      DistinctLastOfContiguous(init);
    }
  }

  /** One more row of the track that comes last in `order` adds its text at the end. */
  lemma ColumnOfLastAgain(ids: seq<int>, x: int, order: seq<int>, textOf: int -> string)
    requires x !in order
    ensures ColumnOf(ids + [x], order + [x], textOf) == ColumnOf(ids, order + [x], textOf) + [textOf(x)]
  {
    var d := order + [x];
    assert d[..|d| - 1] == order;
    ColumnOfOtherSnoc(ids, x, order, textOf);
    CountOfSnoc(ids, x, x);
    var a, v, c := ColumnOf(ids, order, textOf), textOf(x), CountOf(ids, x);
    assert ColumnOf(ids + [x], d, textOf) == a + Repeat(v, c + 1);
    assert ColumnOf(ids, d, textOf) == a + Repeat(v, c);
    assert Repeat(v, c + 1) == Repeat(v, c) + [v];
    assert a + (Repeat(v, c) + [v]) == (a + Repeat(v, c)) + [v];
  }

  /** A row of a new track adds that track's text at the end of the column. */
  lemma ColumnSnocNew(ids: seq<int>, x: int, textOf: int -> string)
    requires x !in ids
    ensures ColumnOf(ids + [x], Distinct(ids + [x]), textOf) == ColumnOf(ids, Distinct(ids), textOf) + [textOf(x)]
  {
    var d := Distinct(ids);
    DistinctSnoc(ids, x);
    ColumnOfLastAgain(ids, x, d, textOf);
    assert ColumnOf(ids, d + [x], textOf) == ColumnOf(ids, d, textOf) by {
      assert (d + [x])[..|d|] == d;
      assert CountOf(ids, x) == 0;
    }
  }

  /** Another row of the last track adds that track's text at the end of the column. */
  lemma ColumnSnocRepeat(ids: seq<int>, x: int, textOf: int -> string)
    requires ids != [] && Distinct(ids)[|Distinct(ids)| - 1] == x
    ensures ColumnOf(ids + [x], Distinct(ids + [x]), textOf) == ColumnOf(ids, Distinct(ids), textOf) + [textOf(x)]
  {
    var d := Distinct(ids);
    var d0 := d[..|d| - 1];
    LastSplit(d);
    forall j | 0 <= j < |d0|
      ensures d0[j] != x
    {
      assert d0[j] == d[j] && d[|d| - 1] == x;
    }
    assert Distinct(ids + [x]) == d by {
      assert x in ids;
      DistinctSnoc(ids, x);
    }
    ColumnOfLastAgain(ids, x, d0, textOf);
  }

  /**
   * When the rows of every track are contiguous, each row's entry in the
   * column is the text of its own track.
   */
  lemma {:induction false} ColumnContiguous(ids: seq<int>, textOf: int -> string)
    requires Contiguous(ids)
    ensures var column := ColumnOf(ids, Distinct(ids), textOf);
      |column| == |ids| && forall k :: 0 <= k < |ids| ==> column[k] == textOf(ids[k])
    decreases |ids|
  {
    if ids != [] {
      var init, x := ids[..|ids| - 1], ids[|ids| - 1];
      assert ids == init + [x];
      ContiguousInit(ids);
      ColumnContiguous(init, textOf);
      if x in init {
        assert ids[|ids| - 2] == x;
        DistinctLastOfContiguous(init);
        ColumnSnocRepeat(init, x, textOf);
      } else {
        ColumnSnocNew(init, x, textOf);
      }
      var prior := ColumnOf(init, Distinct(init), textOf);
      var column := ColumnOf(ids, Distinct(ids), textOf);
      assert column == prior + [textOf(x)];
      forall k | 0 <= k < |ids|
        ensures column[k] == textOf(ids[k])
      {
        if k < |init| {
          assert column[k] == prior[k] && ids[k] == init[k];
        }
      }
    }
  }

  /**
   * The column is assigned by position: when the rows of a track are not
   * contiguous, a row can receive another track's tags. With ids a, b, a
   * the second row, of track b, gets the tags of track a.
   */
  lemma InterleavedRowsMislabelled(a: int, b: int, textOf: int -> string)
    requires a != b && textOf(a) != textOf(b)
    ensures var ids := [a, b, a];
      var column := ColumnOf(ids, Distinct(ids), textOf);
      |column| == 3 && column[1] == textOf(a) != textOf(ids[1])
  {
    var ids := [a, b, a];
    InterleavedDistinct(a, b);
    InterleavedCounts(a, b);
    assert [a, b][..1] == [a] && [a][..0] == [];
    var first := Repeat(textOf(a), 2);
    assert ColumnOf(ids, [a], textOf) == ColumnOf(ids, [], textOf) + first;
    assert [] + first == first;
  }

  lemma InterleavedDistinct(a: int, b: int)
    requires a != b
    ensures Distinct([a, b, a]) == [a, b]
  {
    assert Distinct([a]) == [a] by {
      assert [a] == [] + [a];
      DistinctSnoc([], a);
    }
    assert Distinct([a, b]) == [a, b] by {
      assert [a, b] == [a] + [b];
      DistinctSnoc([a], b);
    }
    assert [a, b, a] == [a, b] + [a];
    DistinctSnoc([a, b], a);
  }

  lemma InterleavedCounts(a: int, b: int)
    requires a != b
    ensures CountOf([a, b, a], a) == 2 && CountOf([a, b, a], b) == 1
  {
    assert CountOf([a], a) == 1 && CountOf([a], b) == 0 by {
      assert [a] == [] + [a];
      CountOfSnoc([], a, a);
      CountOfSnoc([], a, b);
    }
    assert CountOf([a, b], a) == 1 && CountOf([a, b], b) == 1 by {
      assert [a, b] == [a] + [b];
      CountOfSnoc([a], b, a);
      CountOfSnoc([a], b, b);
    }
    assert [a, b, a] == [a, b] + [a];
    CountOfSnoc([a, b], a, a);
    CountOfSnoc([a, b], a, b);
  }

  /**
   * The column as `generate_all_tags` builds it for the track ids in
   * `order`, or the error of the first track whose tags raise.
   */
  function GroupedTags(rows: seq<Row>, order: seq<int>): (r: Result<seq<string>, TagError>)
  {
    if order == [] then Ok([])
    else
      var prior :- GroupedTags(rows, order[..|order| - 1]);
      var id := order[|order| - 1];
      var tags :- TagsForTrack(rows, id);
      Ok(prior + Repeat(TagText(tags), |TrackRows(rows, id)|))
  }

  /** The tag text of each track, as a function of its id (empty for a track whose tags raise). */
  function Label(rows: seq<Row>): int -> string {
    id => match TagsForTrack(rows, id) case Ok(tags) => TagText(tags) case Err(_) => ""
  }

  /** `generate_all_tags` over the distinct track ids in order of first appearance. */
  function AllTags(rows: seq<Row>): Result<seq<string>, TagError> {
    GroupedTags(rows, Distinct(Ids(rows)))
  }

  /** The run succeeds exactly when no track in `order` raises. */
  lemma {:induction false} GroupedTagsSucceed(rows: seq<Row>, order: seq<int>)
    ensures GroupedTags(rows, order).Ok? <==> forall id :: id in order ==> TagsForTrack(rows, id).Ok?
    decreases |order|
  {
    if order != [] {
      var init := order[..|order| - 1];
      GroupedTagsSucceed(rows, init);
      assert forall id :: id in order <==> id in init || id == order[|order| - 1];
    }
  }

  /** A successful run is the column of `order`, each track's text repeated once per row. */
  lemma {:induction false} GroupedTagsColumn(rows: seq<Row>, order: seq<int>)
    requires GroupedTags(rows, order).Ok?
    ensures GroupedTags(rows, order).value == ColumnOf(Ids(rows), order, Label(rows))
    decreases |order|
  {
    if order != [] {
      var init := order[..|order| - 1];
      GroupedTagsColumn(rows, init);
    }
  }

  /** A failed run carries the error of some track in `order`. */
  lemma {:induction false} GroupedTagsError(rows: seq<Row>, order: seq<int>)
    requires GroupedTags(rows, order).Err?
    ensures exists id :: id in order && TagsForTrack(rows, id) == Err(GroupedTags(rows, order).error)
    decreases |order|
  {
    var init, last := order[..|order| - 1], order[|order| - 1];
    if GroupedTags(rows, init).Err? {
      GroupedTagsError(rows, init);
      var id :| id in init && TagsForTrack(rows, id) == Err(GroupedTags(rows, init).error);
      assert id in order;
    } else {
      assert last in order;
    }
  }

  /** `generate_all_tags` succeeds exactly when no track's tags raise. */
  lemma AllTagsSucceed(rows: seq<Row>)
    ensures AllTags(rows).Ok? <==> forall k :: 0 <= k < |rows| ==> TagsForTrack(rows, rows[k].trackId).Ok?
  {
    var ids := Ids(rows);
    GroupedTagsSucceed(rows, Distinct(ids));
    forall id | id in ids
      ensures exists k :: 0 <= k < |rows| && rows[k].trackId == id
    {
      var k :| 0 <= k < |ids| && ids[k] == id;
      assert rows[k].trackId == id;
    }
  }

  /** The column has one entry per row. */
  lemma AllTagsLength(rows: seq<Row>)
    requires AllTags(rows).Ok?
    ensures |AllTags(rows).value| == |rows|
  {
    GroupedTagsColumn(rows, Distinct(Ids(rows)));
    ColumnLength(Ids(rows), Label(rows));
  }

  /** When the rows of each track are contiguous, every row holds the tag text of its own track. */
  lemma AllTagsContiguous(rows: seq<Row>)
    requires AllTags(rows).Ok? && Contiguous(Ids(rows))
    ensures |AllTags(rows).value| == |rows| && forall k :: 0 <= k < |rows| ==>
      TagsForTrack(rows, rows[k].trackId).Ok? && AllTags(rows).value[k] == TagText(TagsForTrack(rows, rows[k].trackId).value)
  {
    var ids := Ids(rows);
    AllTagsSucceed(rows);
    GroupedTagsColumn(rows, Distinct(ids));
    ColumnContiguous(ids, Label(rows));
    var column := AllTags(rows).value;
    forall k | 0 <= k < |rows|
      ensures TagsForTrack(rows, rows[k].trackId).Ok?
      ensures column[k] == TagText(TagsForTrack(rows, rows[k].trackId).value)
    {
      assert ids[k] == rows[k].trackId;
      assert column[k] == Label(rows)(ids[k]);
    }
  }

  // --------------------------------------------------------------- statistics

  /** `Counter(tags)` */
  function Tally(tags: seq<string>): map<string, nat> {
    if tags == [] then map[]
    else
      var prior := Tally(tags[..|tags| - 1]);
      var last := tags[|tags| - 1];
      prior[last := (if last in prior then prior[last] else 0) + 1]
  }

  /** The tally holds exactly the tags that occur, each with the number of times it occurs. */
  lemma {:induction false} TallyCounts(tags: seq<string>)
    ensures forall t :: t in Tally(tags) <==> t in tags
    ensures forall t :: t in Tally(tags) ==> Tally(tags)[t] == CountOf(tags, t)
    decreases |tags|
  {
    if tags != [] {
      var init, last := tags[..|tags| - 1], tags[|tags| - 1];
      TallyCounts(init);
      assert tags == init + [last];
      forall t
        ensures CountOf(tags, t) == CountOf(init, t) + (if last == t then 1 else 0)
      {
        CountOfSnoc(init, last, t);
      }
    }
  }

  /** The tags of each string, one string after the other. */
  function SplitAll(texts: seq<string>): seq<string> {
    if texts == [] then [] else SplitAll(texts[..|texts| - 1]) + Split(texts[|texts| - 1])
  }

  /**
   * The statistics count tags over the distinct tag strings, not over rows:
   * another row with a tag string already in the column changes nothing.
   */
  lemma StatisticsIgnoreRepeatedRows(column: seq<string>, text: string)
    requires text in column
    ensures Tally(SplitAll(Distinct(column + [text]))) == Tally(SplitAll(Distinct(column)))
  {
    DistinctSnoc(column, text);
  }

  // --------------------------------------------------------------- generator

  /** The generator: the loaded rows, the `ai_generated_tags` column and `tags_generated`. */
  class TrackTagGenerator {
    var data: Option<seq<Row>>
    var tagColumn: Option<seq<string>>
    var tagsGenerated: bool

    constructor()
      ensures data == None && tagColumn == None && !tagsGenerated
    {
      data := None;
      tagColumn := None;
      tagsGenerated := false;
    }

    /**
     * `load_csv`, given the rows the file holds and its `ai_generated_tags`
     * column, which a file written by `save_tagged_csv` has and other files
     * lack: the table is replaced, whatever column it had, and
     * `tags_generated` keeps its value.
     */
    method LoadCsv(rows: seq<Row>, tags: Option<seq<string>>)
      modifies this
      ensures data == Some(rows) && tagColumn == tags && tagsGenerated == old(tagsGenerated)
    {
      data := Some(rows);
      tagColumn := tags;
    }

    /** `generate_tags_for_track`, computing the g-forces with their loop. */
    static method GenerateTagsForTrack(rows: seq<Row>, id: int) returns (r: Result<seq<Tag>, TagError>)
      ensures r == TagsForTrack(rows, id)
    {
      var track := TrackRows(rows, id);
      if track == [] {
        return Ok([]);
      }
      var samples := Samples(track);
      var speed := SpeedTags(samples);
      var gForces := CalculateGForces(samples);
      var linearity := Linearity(samples);
      var altitude := Altitude(samples);
      var engine := EngineConfiguration(track[0].aircraftType);
      var role := Role(samples);
      if role.Err? {
        return Err(role.error);
      }
      r := Ok(speed.tags + gForces.tags + linearity.tags + altitude.tags + engine.tags + role.value
              + [TrackOfType(track[0].trackType)]);
    }

    /** The inner loop of `generate_all_tags`: one copy of the text per row of the track. */
    static method AppendCopies(column: seq<string>, text: string, n: nat) returns (r: seq<string>)
      ensures r == column + Repeat(text, n)
    {
      r := column;
      var j := 0;
      while j < n
        invariant 0 <= j <= n
        invariant r == column + Repeat(text, j)
      {
        r := r + [text];
        j := j + 1;
      }
    }

    /** The outer loop of `generate_all_tags`, over the distinct track ids in order of first appearance. */
    static method BuildColumn(rows: seq<Row>) returns (r: Result<seq<string>, TagError>)
      ensures r == AllTags(rows)
    {
      var trackIds := Distinct(Ids(rows));
      var tagsList: seq<string> := [];
      var i := 0;
      while i < |trackIds|
        invariant 0 <= i <= |trackIds|
        invariant GroupedTags(rows, trackIds[..i]) == Ok(tagsList)
      {
        var result := GenerateTagsForTrack(rows, trackIds[i]);
        GroupedStep(rows, trackIds, i, tagsList);
        if result.Err? {
          return Err(result.error);
        }
        var trackIndices := TrackRows(rows, trackIds[i]);
        tagsList := AppendCopies(tagsList, TagText(result.value), |trackIndices|);
        i := i + 1;
      }
      assert trackIds[..i] == trackIds;
      return Ok(tagsList);
    }

    /**
     * `generate_all_tags`: ValueError without data; otherwise the tags of
     * each distinct track, one copy per row of that track, become the
     * `ai_generated_tags` column, unless some track's tags raise first.
     */
    method GenerateAllTags() returns (err: Option<TagError>)
      modifies this
      ensures data == old(data)
      ensures old(data).None? ==> err == Some(NoDataLoaded)
      ensures old(data).Some? && AllTags(old(data).value).Err? ==> err == Some(AllTags(old(data).value).error)
      ensures err.Some? ==> tagColumn == old(tagColumn) && tagsGenerated == old(tagsGenerated)
      ensures old(data).Some? && AllTags(old(data).value).Ok? ==>
        err == None && tagColumn == Some(AllTags(old(data).value).value) && tagsGenerated
    {
      if data.None? {
        return Some(NoDataLoaded);
      }
      var column := BuildColumn(data.value);
      if column.Err? {
        return Some(column.error);
      }
      tagColumn := Some(column.value);
      tagsGenerated := true;
      return None;
    }

    /** The `Counter` loop over the split tags. */
    static method CountTags(tags: seq<string>) returns (counts: map<string, nat>)
      ensures counts == Tally(tags)
    {
      counts := map[];
      var k := 0;
      while k < |tags|
        invariant 0 <= k <= |tags|
        invariant counts == Tally(tags[..k])
      {
        assert tags[..k + 1][..k] == tags[..k];
        counts := counts[tags[k] := (if tags[k] in counts then counts[tags[k]] else 0) + 1];
        k := k + 1;
      }
      assert tags[..k] == tags;
    }

    /**
     * `get_tag_statistics`: None before tags are generated; KeyError when
     * the table has no tag column (it was reloaded since from a file without
     * one); otherwise the count of every tag over the distinct tag strings of
     * the column, whether generated here or loaded with the table.
     */
    method GetTagStatistics() returns (r: Result<Option<map<string, nat>>, TagError>)
      ensures !tagsGenerated ==> r == Ok(None)
      ensures tagsGenerated && tagColumn.None? ==> r == Err(MissingKey("ai_generated_tags"))
      ensures tagsGenerated && tagColumn.Some? ==> r == Ok(Some(Tally(SplitAll(Distinct(tagColumn.value)))))
    {
      if !tagsGenerated {
        return Ok(None);
      }
      if tagColumn.None? {
        return Err(MissingKey("ai_generated_tags"));
      }
      var texts := Distinct(tagColumn.value);
      var allTags: seq<string> := [];
      var i := 0;
      while i < |texts|
        invariant 0 <= i <= |texts|
        invariant allTags == SplitAll(texts[..i])
      {
        assert texts[..i + 1][..i] == texts[..i];
        allTags := allTags + Split(texts[i]);
        i := i + 1;
      }
      assert texts[..i] == texts;
      var counts := CountTags(allTags);
      return Ok(Some(counts));
    }
  }

  /** One more track id either fails the whole run with its error or appends its copies. */
  lemma GroupedStep(rows: seq<Row>, order: seq<int>, i: nat, prior: seq<string>)
    requires i < |order| && GroupedTags(rows, order[..i]) == Ok(prior)
    ensures TagsForTrack(rows, order[i]).Err? ==> GroupedTags(rows, order) == Err(TagsForTrack(rows, order[i]).error)
    ensures TagsForTrack(rows, order[i]).Ok? ==>
      (GroupedTags(rows, order[..i + 1])
       == Ok(prior + Repeat(TagText(TagsForTrack(rows, order[i]).value), |TrackRows(rows, order[i])|)))
  {
    assert order[..i + 1][..i] == order[..i];
    if TagsForTrack(rows, order[i]).Err? {
      GroupedErrorStays(rows, order, i + 1);
    }
  }

  /** Once a prefix of the track ids fails, the whole run fails with the same error. */
  lemma {:induction false} GroupedErrorStays(rows: seq<Row>, order: seq<int>, n: nat)
    requires n <= |order| && GroupedTags(rows, order[..n]).Err?
    ensures GroupedTags(rows, order) == GroupedTags(rows, order[..n])
    decreases |order| - n
  {
    if n < |order| {
      assert order[..n + 1][..n] == order[..n];
      GroupedErrorStays(rows, order, n + 1);
    } else {
      assert order[..n] == order;
    }
  }
}
