/**
 * What the decoder makes of the encoder's output: the round trip, each
 * track's extent, trailing bytes, the magic check and UTF-8 failures.
 */
module CodecProperties {
  import opened Common
  import opened Bytes
  import Utf8
  import opened Decimal
  import opened Tracks
  import opened Generator
  import opened Extractor

  /** `data` holds the bytes `e` from `pos` on: `f.read(len(e))` at `pos` returns them. */
  predicate BytesAt(data: seq<byte>, pos: nat, e: seq<byte>) {
    pos + |e| <= |data| && Take(data, pos, |e|) == e
  }

  lemma {:induction false} BytesAtSplit(data: seq<byte>, pos: nat, a: seq<byte>, b: seq<byte>, mid: nat)
    requires BytesAt(data, pos, a + b) && mid == pos + |a|
    ensures BytesAt(data, pos, a) && BytesAt(data, mid, b)
  {
    SliceSplit(data, pos, pos + |a|, pos + |a| + |b|);
    assert (a + b)[..|a|] == a && (a + b)[|a|..] == b;
    var x, y := Slice(data, pos, pos + |a|), Slice(data, pos + |a|, pos + |a| + |b|);
    assert (x + y)[..|a|] == x && (x + y)[|a|..] == y;
  }

  // ---------------------------------------------------------------------------
  // Each reader gives back what the matching writes put down
  // ---------------------------------------------------------------------------

  lemma {:induction false} ReadU32Encoded(data: seq<byte>, pos: nat, n: int)
    requires IsU32(n) && BytesAt(data, pos, PackU32(n))
    ensures ReadU32At(data, pos) == Ok(Parsed(n, pos + 4))
  {
    UnpackPackU32(n);
  }

  lemma {:induction false} ReadF64Encoded(data: seq<byte>, pos: nat, d: Float64)
    requires BytesAt(data, pos, d)
    ensures ReadF64At(data, pos) == Ok(Parsed(d, pos + 8))
  {
  }

  /** What `f.read(n).decode('utf-8')` makes of the bytes `e` after their count. */
  function TextRead(e: seq<byte>, next: nat): Read<string> {
    match Utf8.Decode(e)
    case None => Err(UnicodeDecodeError)
    case Some(s) => Ok(Parsed(s, next))
  }

  /** A byte string written after its length reads back decoded, or raises when it is not UTF-8. */
  lemma {:induction false} ReadTextOf(data: seq<byte>, pos: nat, e: seq<byte>, at: nat, next: nat)
    requires IsU32(|e|) && at == pos + 4 && next == at + |e|
    requires BytesAt(data, pos, PackU32(|e|)) && BytesAt(data, at, e)
    ensures ReadTextAt(data, pos) == TextRead(e, next)
  {
    ReadU32Encoded(data, pos, |e|);
  }

  /** A string written as its UTF-8 byte count and bytes reads back as itself. */
  lemma {:induction false} ReadTextEncoded(data: seq<byte>, pos: nat, s: string)
    requires IsU32(|Utf8.Encode(s)|) && BytesAt(data, pos, PackU32(|Utf8.Encode(s)|) + Utf8.Encode(s))
    ensures ReadTextAt(data, pos) == Ok(Parsed(s, pos + 4 + |Utf8.Encode(s)|))
  {
    var e := Utf8.Encode(s);
    BytesAtSplit(data, pos, PackU32(|e|), e, pos + 4);
    ReadTextOf(data, pos, e, pos + 4, pos + 4 + |e|);
    TextReadEncoded(s, pos + 4 + |e|);
  }

  /** The UTF-8 bytes of a string decode back to it. */
  lemma TextReadEncoded(s: string, next: nat)
    ensures TextRead(Utf8.Encode(s), next) == Ok(Parsed(s, next))
  {
    Utf8.DecodeEncode(s);
  }

  lemma {:induction false} ReadPositionEncoded(data: seq<byte>, pos: nat, p: CartesianPosition)
    requires BytesAt(data, pos, PositionBytes(p))
    ensures ReadPositionAt(data, pos) == Ok(Parsed(ToPolar(p), pos + 48))
  {
    var b1 := p.timestamp;
    var b2 := b1 + p.latitude;
    var b3 := b2 + p.longitude;
    var b4 := b3 + p.altitude;
    var b5 := b4 + p.speed;
    BytesAtSplit(data, pos, b5, p.heading, pos + 40);
    BytesAtSplit(data, pos, b4, p.speed, pos + 32);
    BytesAtSplit(data, pos, b3, p.altitude, pos + 24);
    BytesAtSplit(data, pos, b2, p.longitude, pos + 16);
    BytesAtSplit(data, pos, b1, p.latitude, pos + 8);
    ReadF64Encoded(data, pos, p.timestamp);
    ReadF64Encoded(data, pos + 8, p.latitude);
    ReadF64Encoded(data, pos + 16, p.longitude);
    ReadF64Encoded(data, pos + 24, p.altitude);
    ReadF64Encoded(data, pos + 32, p.speed);
    ReadF64Encoded(data, pos + 40, p.heading);
  }

  /** One more position after `count` of them extends what the loop of `_read_track` has read. */
  lemma {:induction false} ReadPositionsStep(data: seq<byte>, pos: nat, count: nat, init: Parsed<seq<PolarPosition>>,
                                             last: Parsed<PolarPosition>)
    requires pos <= |data| && init.next <= |data|
    requires ReadPositionsAt(data, pos, count) == Ok(init) && ReadPositionAt(data, init.next) == Ok(last)
    ensures ReadPositionsAt(data, pos, count + 1) == Ok(Parsed(init.value + [last.value], last.next))
  {
  }

  /** The positions read so far, then one more written position. */
  lemma {:induction false} PositionsSnocRead(data: seq<byte>, pos: nat, ps: seq<CartesianPosition>)
    requires ps != [] && BytesAt(data, pos + 48 * (|ps| - 1), PositionBytes(ps[|ps| - 1]))
    requires var init := ps[..|ps| - 1];
      ReadPositionsAt(data, pos, |init|) == Ok(Parsed(PolarPositions(init), pos + 48 * |init|))
    ensures ReadPositionsAt(data, pos, |ps|) == Ok(Parsed(PolarPositions(ps), pos + 48 * |ps|))
  {
    var init, last, q := ps[..|ps| - 1], ps[|ps| - 1], pos + 48 * (|ps| - 1);
    ReadPositionEncoded(data, q, last);
    ReadPositionsStep(data, pos, |init|, Parsed(PolarPositions(init), q), Parsed(ToPolar(last), q + 48));
    PolarPositionsAppend(ps);
  }

  lemma {:induction false} ReadPositionsEncoded(data: seq<byte>, pos: nat, ps: seq<CartesianPosition>)
    requires BytesAt(data, pos, PositionsBytes(ps))
    ensures ReadPositionsAt(data, pos, |ps|) == Ok(Parsed(PolarPositions(ps), pos + 48 * |ps|))
    decreases |ps|
  {
    if ps != [] {
      PositionsBytesSplit(data, pos, ps);
      ReadPositionsEncoded(data, pos, ps[..|ps| - 1]);
      PositionsSnocRead(data, pos, ps);
    }
  }

  /** The bytes of the positions are those of all but the last, then those of the last. */
  lemma {:induction false} PositionsBytesSplit(data: seq<byte>, pos: nat, ps: seq<CartesianPosition>)
    requires ps != [] && BytesAt(data, pos, PositionsBytes(ps))
    ensures BytesAt(data, pos, PositionsBytes(ps[..|ps| - 1]))
    ensures BytesAt(data, pos + 48 * (|ps| - 1), PositionBytes(ps[|ps| - 1]))
  {
    var init, last := ps[..|ps| - 1], ps[|ps| - 1];
    PositionsSize(init);
    BytesAtSplit(data, pos, PositionsBytes(init), PositionBytes(last), pos + 48 * |init|);
  }

  /** An id and three byte strings, each after its length: the labels of a track as written. */
  function LabelsOf(id: int, n: seq<byte>, k: seq<byte>, a: seq<byte>): seq<byte>
    requires IsU32(id) && IsU32(|n|) && IsU32(|k|) && IsU32(|a|)
  {
    PackU32(id) + PackU32(|n|) + n + PackU32(|k|) + k + PackU32(|a|) + a
  }

  /** The bytes of a track's id and three strings. */
  function LabelsBytes(t: Track<CartesianPosition>): seq<byte>
    requires TrackEncodable(t)
  {
    LabelsOf(t.trackId, Utf8.Encode(t.trackName), Utf8.Encode(t.trackType), Utf8.Encode(t.aircraftType))
  }

  /** The labels take 16 bytes plus the UTF-8 bytes of the three strings. */
  lemma LabelsSize(t: Track<CartesianPosition>)
    requires TrackEncodable(t)
    ensures |LabelsBytes(t)| + 28 + 48 * |t.positions| == EncodedSize(t)
  {
  }

  /** A track as written: its labels, its three times, its position count and its positions. */
  lemma {:induction false} TrackBytesParts(t: Track<CartesianPosition>)
    requires TrackEncodable(t)
    ensures TrackBytes(t) == LabelsBytes(t) + t.startTime + t.endTime + t.lifetime + PackU32(|t.positions|)
                             + PositionsBytes(t.positions)
  {
  }

  /** `ReadLabelsAt` strings together its four reads. */
  lemma {:induction false} ReadLabelsSteps(data: seq<byte>, pos: nat, id: int, name: Parsed<string>, kind: Parsed<string>, aircraft: Parsed<string>)
    requires pos + 4 <= name.next <= kind.next <= aircraft.next <= |data|
    requires ReadU32At(data, pos) == Ok(Parsed(id, pos + 4))
    requires ReadTextAt(data, pos + 4) == Ok(name)
    requires ReadTextAt(data, name.next) == Ok(kind)
    requires ReadTextAt(data, kind.next) == Ok(aircraft)
    ensures ReadLabelsAt(data, pos) == Ok(Parsed(Labels(id, name.value, kind.value, aircraft.value), aircraft.next))
  {
    var r1 := ReadU32At(data, pos);
    var r2 := ReadTextAt(data, r1.Extract().next);
    var r3 := ReadTextAt(data, r2.Extract().next);
    assert ReadTextAt(data, r3.Extract().next) == Ok(aircraft);
  }

  /** The id, the three byte counts and the three byte strings of the labels lie one after another. */
  lemma {:induction false} LabelsSplit(data: seq<byte>, pos: nat, id: int, n: seq<byte>, k: seq<byte>, a: seq<byte>, p2: nat, p3: nat)
    requires IsU32(id) && IsU32(|n|) && IsU32(|k|) && IsU32(|a|) && BytesAt(data, pos, LabelsOf(id, n, k, a))
    requires p2 == pos + 8 + |n| && p3 == p2 + 4 + |k|
    ensures BytesAt(data, pos, PackU32(id)) && BytesAt(data, pos + 4, PackU32(|n|)) && BytesAt(data, pos + 8, n)
    ensures BytesAt(data, p2, PackU32(|k|)) && BytesAt(data, p2 + 4, k)
    ensures BytesAt(data, p3, PackU32(|a|)) && BytesAt(data, p3 + 4, a)
  {
    var b1 := PackU32(id);
    var b2 := b1 + PackU32(|n|);
    var b3 := b2 + n;
    var b4 := b3 + PackU32(|k|);
    var b5 := b4 + k;
    var b6 := b5 + PackU32(|a|);
    BytesAtSplit(data, pos, b6, a, p3 + 4);
    BytesAtSplit(data, pos, b5, PackU32(|a|), p3);
    BytesAtSplit(data, pos, b4, k, p2 + 4);
    BytesAtSplit(data, pos, b3, PackU32(|k|), p2);
    BytesAtSplit(data, pos, b2, n, pos + 8);
    BytesAtSplit(data, pos, b1, PackU32(|n|), pos + 4);
  }

  /** Over the labels as written, the id reads back and each string reads back as its bytes decoded. */
  lemma {:induction false} LabelsReads(data: seq<byte>, pos: nat, id: int, n: seq<byte>, k: seq<byte>, a: seq<byte>,
                                       p2: nat, p3: nat, p4: nat)
    requires IsU32(id) && IsU32(|n|) && IsU32(|k|) && IsU32(|a|) && BytesAt(data, pos, LabelsOf(id, n, k, a))
    requires p2 == pos + 8 + |n| && p3 == p2 + 4 + |k| && p4 == p3 + 4 + |a|
    ensures p4 <= |data| && ReadU32At(data, pos) == Ok(Parsed(id, pos + 4))
    ensures ReadTextAt(data, pos + 4) == TextRead(n, p2)
    ensures ReadTextAt(data, p2) == TextRead(k, p3)
    ensures ReadTextAt(data, p3) == TextRead(a, p4)
  {
    LabelsSplit(data, pos, id, n, k, a, p2, p3);
    ReadU32Encoded(data, pos, id);
    ReadTextOf(data, pos + 4, n, pos + 8, p2);
    ReadTextOf(data, p2, k, p2 + 4, p3);
    ReadTextOf(data, p3, a, p3 + 4, p4);
  }

  lemma {:induction false} ReadLabelsOf(data: seq<byte>, pos: nat, id: int, n: seq<byte>, k: seq<byte>, a: seq<byte>)
    requires IsU32(id) && IsU32(|n|) && IsU32(|k|) && IsU32(|a|) && BytesAt(data, pos, LabelsOf(id, n, k, a))
    requires Utf8.Decode(n).Some? && Utf8.Decode(k).Some? && Utf8.Decode(a).Some?
    ensures ReadLabelsAt(data, pos) == Ok(Parsed(Labels(id, Utf8.Decode(n).value, Utf8.Decode(k).value, Utf8.Decode(a).value),
                                                 pos + 16 + |n| + |k| + |a|))
  {
    var p2, p3 := pos + 8 + |n|, pos + 12 + |n| + |k|;
    var p4 := pos + 16 + |n| + |k| + |a|;
    LabelsReads(data, pos, id, n, k, a, p2, p3, p4);
    ReadLabelsSteps(data, pos, id, Parsed(Utf8.Decode(n).value, p2), Parsed(Utf8.Decode(k).value, p3),
                    Parsed(Utf8.Decode(a).value, p4));
  }

  lemma {:induction false} ReadTimesEncoded(data: seq<byte>, pos: nat, s: Float64, e: Float64, l: Float64)
    requires BytesAt(data, pos, s) && BytesAt(data, pos + 8, e) && BytesAt(data, pos + 16, l)
    ensures ReadTimesAt(data, pos) == Ok(Parsed(Times(s, e, l), pos + 24))
  {
    ReadF64Encoded(data, pos, s);
    ReadF64Encoded(data, pos + 8, e);
    ReadF64Encoded(data, pos + 16, l);
  }

  /** `ReadTrackAt` strings together its four reads. */
  lemma {:induction false} ReadTrackSteps(data: seq<byte>, pos: nat, labels: Parsed<Labels>, times: Parsed<Times>, count: Parsed<int>,
                       positions: Parsed<seq<PolarPosition>>)
    requires pos <= |data| && ReadLabelsAt(data, pos) == Ok(labels)
    requires ReadTimesAt(data, labels.next) == Ok(times)
    requires ReadU32At(data, times.next) == Ok(count)
    requires ReadPositionsAt(data, count.next, count.value) == Ok(positions)
    ensures ReadTrackAt(data, pos) == Ok(Parsed(Track(labels.value.id, labels.value.name, labels.value.kind, labels.value.aircraft,
                                                      times.value.startTime, times.value.endTime, times.value.lifetime,
                                                      positions.value), positions.next))
  {
  }

  // ---------------------------------------------------------------------------
  // Readers as values
  //
  // A proof that reads a whole track back deals with the bytes of all of its
  // parts at once. To keep each step small, the steps below see the readers of
  // the parts only as function values tied to the real readers at the points
  // where those are applied.
  // ---------------------------------------------------------------------------

  datatype Readers = Readers(
    labels: nat -> Read<Labels>,
    times: nat -> Read<Times>,
    u32: nat -> Read<int>,
    positions: (nat, nat) -> Read<seq<PolarPosition>>,
    track: TrackReader)

  /** Within `data`, the readers of the parts of a track agree with the real ones. */
  ghost predicate PartReadersOf(rs: Readers, data: seq<byte>) {
    && (forall p: nat {:trigger ReadLabelsAt(data, p)} :: p <= |data| ==> rs.labels(p) == ReadLabelsAt(data, p))
    && (forall p: nat {:trigger ReadTimesAt(data, p)} :: p <= |data| ==> rs.times(p) == ReadTimesAt(data, p))
    && (forall p: nat {:trigger ReadU32At(data, p)} :: p <= |data| ==> rs.u32(p) == ReadU32At(data, p))
    && (forall p: nat, c: nat {:trigger ReadPositionsAt(data, p, c)} :: p <= |data| ==> rs.positions(p, c) == ReadPositionsAt(data, p, c))
  }

  /** Within `data`, each reader of `rs` agrees with the real one. */
  ghost predicate ReadersOf(rs: Readers, data: seq<byte>) {
    && PartReadersOf(rs, data)
    && (forall p: nat {:trigger ReadTrackAt(data, p)} :: p <= |data| ==> rs.track(p) == ReadTrackAt(data, p))
  }

  /** The real readers, on the bytes `data`. */
  ghost function ReadersIn(data: seq<byte>): (rs: Readers)
    ensures ReadersOf(rs, data) && rs.track == ReadTrackIn(data)
  {
    Readers((p: nat) => if p <= |data| then ReadLabelsAt(data, p) else Err(StructError),
            (p: nat) => if p <= |data| then ReadTimesAt(data, p) else Err(StructError),
            (p: nat) => if p <= |data| then ReadU32At(data, p) else Err(StructError),
            (p: nat, c: nat) => if p <= |data| then ReadPositionsAt(data, p, c) else Err(StructError),
            ReadTrackIn(data))
  }

  lemma {:induction false} LabelsIn(rs: Readers, data: seq<byte>, pos: nat, t: Track<CartesianPosition>)
    requires PartReadersOf(rs, data) && TrackEncodable(t) && BytesAt(data, pos, LabelsBytes(t))
    ensures rs.labels(pos) == Ok(Parsed(Labels(t.trackId, t.trackName, t.trackType, t.aircraftType), pos + |LabelsBytes(t)|))
  {
    Utf8.DecodeEncode(t.trackName);
    Utf8.DecodeEncode(t.trackType);
    Utf8.DecodeEncode(t.aircraftType);
    ReadLabelsOf(data, pos, t.trackId, Utf8.Encode(t.trackName), Utf8.Encode(t.trackType), Utf8.Encode(t.aircraftType));
  }

  lemma {:induction false} TimesIn(rs: Readers, data: seq<byte>, pos: nat, t: Track<CartesianPosition>)
    requires PartReadersOf(rs, data)
    requires BytesAt(data, pos, t.startTime) && BytesAt(data, pos + 8, t.endTime) && BytesAt(data, pos + 16, t.lifetime)
    ensures rs.times(pos) == Ok(Parsed(Times(t.startTime, t.endTime, t.lifetime), pos + 24))
  {
    ReadTimesEncoded(data, pos, t.startTime, t.endTime, t.lifetime);
  }

  lemma {:induction false} U32In(rs: Readers, data: seq<byte>, pos: nat, n: int)
    requires PartReadersOf(rs, data) && IsU32(n) && BytesAt(data, pos, PackU32(n))
    ensures rs.u32(pos) == Ok(Parsed(n, pos + 4))
  {
    ReadU32Encoded(data, pos, n);
  }

  lemma {:induction false} PositionsIn(rs: Readers, data: seq<byte>, pos: nat, ps: seq<CartesianPosition>)
    requires PartReadersOf(rs, data) && BytesAt(data, pos, PositionsBytes(ps))
    ensures rs.positions(pos, |ps|) == Ok(Parsed(PolarPositions(ps), pos + 48 * |ps|))
  {
    ReadPositionsEncoded(data, pos, ps);
  }

  /** `_read_track` strings together its four reads. */
  lemma {:induction false} TrackStepsIn(rs: Readers, data: seq<byte>, pos: nat, labels: Parsed<Labels>, times: Parsed<Times>,
                                        count: Parsed<int>, positions: Parsed<seq<PolarPosition>>)
    requires ReadersOf(rs, data) && pos <= |data| && 0 <= count.value
    requires rs.labels(pos) == Ok(labels) && rs.times(labels.next) == Ok(times)
    requires rs.u32(times.next) == Ok(count) && rs.positions(count.next, count.value) == Ok(positions)
    ensures rs.track(pos) == Ok(Parsed(Track(labels.value.id, labels.value.name, labels.value.kind, labels.value.aircraft,
                                             times.value.startTime, times.value.endTime, times.value.lifetime,
                                             positions.value), positions.next))
  {
    ReadTrackSteps(data, pos, labels, times, count, positions);
  }

  /** The labels, the times, the position count and the positions of an encoded track lie one after another. */
  lemma {:induction false} TrackPartsAt(data: seq<byte>, pos: nat, t: Track<CartesianPosition>, q1: nat, q2: nat, q3: nat)
    requires TrackEncodable(t) && BytesAt(data, pos, TrackBytes(t))
    requires q1 == pos + |LabelsBytes(t)| && q2 == q1 + 24 && q3 == q2 + 4
    ensures BytesAt(data, pos, LabelsBytes(t))
    ensures BytesAt(data, q1, t.startTime) && BytesAt(data, q1 + 8, t.endTime) && BytesAt(data, q1 + 16, t.lifetime)
    ensures BytesAt(data, q2, PackU32(|t.positions|)) && BytesAt(data, q3, PositionsBytes(t.positions))
  {
    TrackBytesParts(t);
    var head := LabelsBytes(t) + t.startTime + t.endTime + t.lifetime + PackU32(|t.positions|);
    BytesAtSplit(data, pos, head, PositionsBytes(t.positions), q3);
    HeadPartsAt(data, pos, t, q1, q2);
  }

  /** The labels, the three times and the position count of a track lie one after another. */
  lemma {:induction false} HeadPartsAt(data: seq<byte>, pos: nat, t: Track<CartesianPosition>, q1: nat, q2: nat)
    requires TrackEncodable(t) && q1 == pos + |LabelsBytes(t)| && q2 == q1 + 24
    requires BytesAt(data, pos, LabelsBytes(t) + t.startTime + t.endTime + t.lifetime + PackU32(|t.positions|))
    ensures BytesAt(data, pos, LabelsBytes(t))
    ensures BytesAt(data, q1, t.startTime) && BytesAt(data, q1 + 8, t.endTime) && BytesAt(data, q1 + 16, t.lifetime)
    ensures BytesAt(data, q2, PackU32(|t.positions|))
  {
    var b1 := LabelsBytes(t);
    var b2 := b1 + t.startTime;
    var b3 := b2 + t.endTime;
    var b4 := b3 + t.lifetime;
    BytesAtSplit(data, pos, b4, PackU32(|t.positions|), q2);
    BytesAtSplit(data, pos, b3, t.lifetime, q1 + 16);
    BytesAtSplit(data, pos, b2, t.endTime, q1 + 8);
    BytesAtSplit(data, pos, b1, t.startTime, q1);
  }

  /** The first two reads of `_read_track`, the labels and the times, return their parts of an encoded track. */
  lemma {:induction false} HeadReadIn(rs: Readers, data: seq<byte>, pos: nat, t: Track<CartesianPosition>, q1: nat, q2: nat)
    requires PartReadersOf(rs, data) && TrackEncodable(t)
    requires q1 == pos + |LabelsBytes(t)| && q2 == q1 + 24
    requires BytesAt(data, pos, LabelsBytes(t))
    requires BytesAt(data, q1, t.startTime) && BytesAt(data, q1 + 8, t.endTime) && BytesAt(data, q1 + 16, t.lifetime)
    ensures rs.labels(pos) == Ok(Parsed(Labels(t.trackId, t.trackName, t.trackType, t.aircraftType), q1))
    ensures rs.times(q1) == Ok(Parsed(Times(t.startTime, t.endTime, t.lifetime), q2))
  {
    LabelsIn(rs, data, pos, t);
    TimesIn(rs, data, q1, t);
  }

  /** The last two reads of `_read_track`, the position count and the positions, return their parts of an encoded track. */
  lemma {:induction false} BodyReadIn(rs: Readers, data: seq<byte>, t: Track<CartesianPosition>, q2: nat, q3: nat)
    requires PartReadersOf(rs, data) && q3 == q2 + 4 && IsU32(|t.positions|)
    requires BytesAt(data, q2, PackU32(|t.positions|)) && BytesAt(data, q3, PositionsBytes(t.positions))
    ensures rs.u32(q2) == Ok(Parsed(|t.positions|, q3))
    ensures rs.positions(q3, |t.positions|) == Ok(Parsed(PolarPositions(t.positions), q3 + 48 * |t.positions|))
  {
    U32In(rs, data, q2, |t.positions|);
    PositionsIn(rs, data, q3, t.positions);
  }

  /** `_read_track` over the four parts of an encoded track returns the track. */
  lemma {:induction false} TrackPartsRead(rs: Readers, data: seq<byte>, pos: nat, t: Track<CartesianPosition>, q1: nat, q2: nat, q3: nat)
    requires ReadersOf(rs, data) && TrackEncodable(t)
    requires q1 == pos + |LabelsBytes(t)| && q2 == q1 + 24 && q3 == q2 + 4
    requires BytesAt(data, pos, LabelsBytes(t))
    requires BytesAt(data, q1, t.startTime) && BytesAt(data, q1 + 8, t.endTime) && BytesAt(data, q1 + 16, t.lifetime)
    requires BytesAt(data, q2, PackU32(|t.positions|)) && BytesAt(data, q3, PositionsBytes(t.positions))
    ensures rs.track(pos) == Ok(Parsed(PolarTrack(t), pos + EncodedSize(t)))
  {
    var labels := Parsed(Labels(t.trackId, t.trackName, t.trackType, t.aircraftType), q1);
    var times := Parsed(Times(t.startTime, t.endTime, t.lifetime), q2);
    var count := Parsed(|t.positions|, q3);
    var positions := Parsed(PolarPositions(t.positions), q3 + 48 * |t.positions|);
    assert && rs.labels(pos) == Ok(labels) && rs.times(q1) == Ok(times)
           && rs.u32(q2) == Ok(count) && rs.positions(q3, |t.positions|) == Ok(positions) by {
      HeadReadIn(rs, data, pos, t, q1, q2);
      BodyReadIn(rs, data, t, q2, q3);
    }
    LabelsSize(t);
    TrackStepsIn(rs, data, pos, labels, times, count, positions);
  }

  /** `_read_track` over an encoded track returns it, and stops right after its bytes. */
  lemma {:induction false} TrackEncodedIn(rs: Readers, data: seq<byte>, pos: nat, t: Track<CartesianPosition>)
    requires ReadersOf(rs, data) && TrackEncodable(t) && BytesAt(data, pos, TrackBytes(t))
    ensures rs.track(pos) == Ok(Parsed(PolarTrack(t), pos + EncodedSize(t)))
  {
    var q1 := pos + |LabelsBytes(t)|;
    var q2, q3 := q1 + 24, q1 + 28;
    assert && BytesAt(data, pos, LabelsBytes(t))
           && BytesAt(data, q1, t.startTime) && BytesAt(data, q1 + 8, t.endTime) && BytesAt(data, q1 + 16, t.lifetime)
           && BytesAt(data, q2, PackU32(|t.positions|)) && BytesAt(data, q3, PositionsBytes(t.positions)) by {
      TrackPartsAt(data, pos, t, q1, q2, q3);
    }
    TrackPartsRead(rs, data, pos, t, q1, q2, q3);
  }

  /** `_read_track` over an encoded track returns it, and stops right after its bytes. */
  lemma {:induction false} ReadTrackEncoded(data: seq<byte>, pos: nat, t: Track<CartesianPosition>)
    requires TrackEncodable(t) && BytesAt(data, pos, TrackBytes(t))
    ensures ReadTrackAt(data, pos) == Ok(Parsed(PolarTrack(t), pos + EncodedSize(t)))
  {
    TrackEncodedIn(ReadersIn(data), data, pos, t);
  }

  /**
   * Whatever the bytes, a string read that returns stops right after the
   * UTF-8 encoding of the string it returns: its count and bytes are exactly
   * those the writer would give it, even when the read was cut short.
   */
  lemma ReadTextSize(data: seq<byte>, pos: nat)
    requires pos <= |data| && ReadTextAt(data, pos).Ok?
    ensures ReadTextAt(data, pos).value.next == pos + 4 + |Utf8.Encode(ReadTextAt(data, pos).value.value)|
  {
    var len := ReadU32At(data, pos).value;
    Utf8.EncodeDecode(Take(data, len.next, len.value));
  }

  /**
   * Whatever the bytes, a track read that returns stops after exactly
   * `EncodedSize` bytes of the track it returns, so the next track starts
   * right after it.
   */
  lemma ReadTrackSize(data: seq<byte>, pos: nat)
    requires pos <= |data| && ReadTrackAt(data, pos).Ok?
    ensures ReadTrackAt(data, pos).value.next == pos + EncodedSize(ReadTrackAt(data, pos).value.value)
  {
    var labels := ReadLabelsAt(data, pos).value;
    ReadLabelsSize(data, pos);
    var times := ReadTimesAt(data, labels.next).value;
    var count := ReadU32At(data, times.next).value;
    assert ReadPositionsAt(data, count.next, count.value).Ok?;
  }

  /** A labels read that returns stops after the id and the three strings as the writer would give them. */
  lemma ReadLabelsSize(data: seq<byte>, pos: nat)
    requires pos <= |data| && ReadLabelsAt(data, pos).Ok?
    ensures var labels := ReadLabelsAt(data, pos).value;
      labels.next == pos + 16 + |Utf8.Encode(labels.value.name)| + |Utf8.Encode(labels.value.kind)|
                     + |Utf8.Encode(labels.value.aircraft)|
  {
    var id := ReadU32At(data, pos).value;
    var name := ReadTextAt(data, id.next).value;
    var kind := ReadTextAt(data, name.next).value;
    ReadTextSize(data, id.next);
    ReadTextSize(data, name.next);
    ReadTextSize(data, kind.next);
  }

  lemma {:induction false} TracksEncodablePrefix(ts: seq<Track<CartesianPosition>>, n: nat)
    requires TracksEncodable(ts) && n <= |ts|
    ensures TracksEncodable(ts[..n])
  {
    assert forall i :: 0 <= i < n ==> ts[..n][i] == ts[i];
  }

  // ---------------------------------------------------------------------------
  // A file's tracks, one after another
  // ---------------------------------------------------------------------------

  /** Byte strings written one after another. */
  function Concat(chunks: seq<seq<byte>>): seq<byte> {
    if chunks == [] then [] else Concat(chunks[..|chunks| - 1]) + chunks[|chunks| - 1]
  }

  /** The bytes of each track, in order. */
  function TrackChunks(ts: seq<Track<CartesianPosition>>): (r: seq<seq<byte>>)
    requires TracksEncodable(ts)
    ensures |r| == |ts|
  {
    seq(|ts|, i requires 0 <= i < |ts| => TrackBytes(ts[i]))
  }

  lemma {:induction false} TracksConcat(ts: seq<Track<CartesianPosition>>)
    requires TracksEncodable(ts)
    ensures TracksBytes(ts) == Concat(TrackChunks(ts))
    decreases |ts|
  {
    if ts != [] {
      TrackChunksSnoc(ts);
      TracksConcat(ts[..|ts| - 1]);
    }
  }

  /** The chunks of a nonempty list of tracks: those of all but the last, then the last track's bytes. */
  lemma TrackChunksSnoc(ts: seq<Track<CartesianPosition>>)
    requires TracksEncodable(ts) && ts != []
    ensures TracksEncodable(ts[..|ts| - 1])
    ensures Concat(TrackChunks(ts)) == Concat(TrackChunks(ts[..|ts| - 1])) + TrackBytes(ts[|ts| - 1])
  {
    TracksEncodablePrefix(ts, |ts| - 1);
    var c := TrackChunks(ts);
    assert c[..|c| - 1] == TrackChunks(ts[..|ts| - 1]);
  }

  /** `read` returns each of `vals` where the chunks before the matching chunk end. */
  ghost predicate ReadsChunks(read: TrackReader, pos: nat, chunks: seq<seq<byte>>, vals: seq<Track<PolarPosition>>)
    decreases |chunks|
  {
    |vals| == |chunks| &&
    (chunks == [] ||
     var n := |chunks|;
     ReadsChunks(read, pos, chunks[..n - 1], vals[..n - 1])
     && read(pos + |Concat(chunks[..n - 1])|) == Ok(Parsed(vals[n - 1], pos + |Concat(chunks[..n - 1])| + |chunks[n - 1]|)))
  }

  /** A reader that reads a value from wherever its chunk lies reads each value of chunks laid out one after another. */
  lemma {:induction false} ChunksRead(read: TrackReader, data: seq<byte>, pos: nat, chunks: seq<seq<byte>>, vals: seq<Track<PolarPosition>>)
    requires |vals| == |chunks| && BytesAt(data, pos, Concat(chunks))
    requires forall p: nat, i {:trigger BytesAt(data, p, chunks[i])} :: 0 <= i < |chunks| && BytesAt(data, p, chunks[i]) ==>
               read(p) == Ok(Parsed(vals[i], p + |chunks[i]|))
    ensures ReadsChunks(read, pos, chunks, vals)
    decreases |chunks|
  {
    if chunks != [] {
      var n := |chunks|;
      BytesAtSplit(data, pos, Concat(chunks[..n - 1]), chunks[n - 1], pos + |Concat(chunks[..n - 1])|);
      ChunksRead(read, data, pos, chunks[..n - 1], vals[..n - 1]);
    }
  }

  /** Turns whose reads each return the next value load all of them, in order. */
  lemma {:induction false} TurnsChunks(read: TrackReader, limit: nat, pos: nat, chunks: seq<seq<byte>>, vals: seq<Track<PolarPosition>>)
    requires Advancing(read, limit) && pos <= limit && ReadsChunks(read, pos, chunks, vals)
    ensures Turns(read, limit, pos, |chunks|) == Loaded(vals, pos + |Concat(chunks)|, None)
    decreases |chunks|
  {
    if chunks != [] {
      var n := |chunks|;
      TurnsChunks(read, limit, pos, chunks[..n - 1], vals[..n - 1]);
      TurnsAppend(read, limit, pos, n, vals[..n - 1], pos + |Concat(chunks[..n - 1])|, vals[n - 1],
                  pos + |Concat(chunks[..n - 1])| + |chunks[n - 1]|);
      assert vals[..n - 1] + [vals[n - 1]] == vals;
    }
  }

  /** `_read_track` reads each track back from wherever its bytes lie. */
  lemma {:induction false} TrackChunksRead(rs: Readers, data: seq<byte>, ts: seq<Track<CartesianPosition>>)
    requires ReadersOf(rs, data) && TracksEncodable(ts)
    ensures forall p: nat, i {:trigger BytesAt(data, p, TrackChunks(ts)[i])} ::
              0 <= i < |TrackChunks(ts)| && BytesAt(data, p, TrackChunks(ts)[i]) ==>
              rs.track(p) == Ok(Parsed(PolarTracks(ts)[i], p + |TrackChunks(ts)[i]|))
  {
    forall p: nat, i {:trigger BytesAt(data, p, TrackChunks(ts)[i])} | 0 <= i < |TrackChunks(ts)| && BytesAt(data, p, TrackChunks(ts)[i])
      ensures rs.track(p) == Ok(Parsed(PolarTracks(ts)[i], p + |TrackChunks(ts)[i]|))
    {
      TrackChunkRead(rs, data, p, ts, i);
    }
  }

  /** `_read_track` reads the `i`-th track back from wherever its bytes lie. */
  lemma {:induction false} TrackChunkRead(rs: Readers, data: seq<byte>, p: nat, ts: seq<Track<CartesianPosition>>, i: nat)
    requires ReadersOf(rs, data) && TracksEncodable(ts) && i < |ts| && BytesAt(data, p, TrackChunks(ts)[i])
    ensures rs.track(p) == Ok(Parsed(PolarTracks(ts)[i], p + |TrackChunks(ts)[i]|))
  {
    var t := ts[i];
    assert TrackChunks(ts)[i] == TrackBytes(t);
    assert PolarTracks(ts)[i] == PolarTrack(t);
    TrackEncodedIn(rs, data, p, t);
    TrackLength(t);
  }

  /** The loop over `range(num_tracks)` reads back every encoded track, in order, and nothing more. */
  lemma {:induction false} LoadTracksEncoded(data: seq<byte>, pos: nat, ts: seq<Track<CartesianPosition>>)
    requires TracksEncodable(ts) && BytesAt(data, pos, TracksBytes(ts))
    ensures LoadTracks(data, pos, |ts|) == Loaded(PolarTracks(ts), pos + TracksSize(ts), None)
  {
    var rs, chunks := ReadersIn(data), TrackChunks(ts);
    TracksConcat(ts);
    TracksLength(ts);
    TrackChunksRead(rs, data, ts);
    ChunksRead(rs.track, data, pos, chunks, PolarTracks(ts));
    TurnsChunks(rs.track, |data|, pos, chunks, PolarTracks(ts));
  }
}
