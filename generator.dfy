/**
 * The binary track encoder (`TrackGenerator.save_to_binary`).
 *
 * The encoder issues a fixed sequence of writes, each the output of one
 * `struct.pack` or a raw byte string. `struct.pack('I', n)` raises for an `n`
 * outside [0, 2^32), and the bytes written before it stay in the file; the
 * model therefore describes the writes as a sequence of fields and the file as
 * the bytes of the fields before the first one that cannot be packed.
 */
module Generator {
  import opened Bytes
  import Utf8
  import opened Tracks

  const VERSION: int := 1

  /** One write: raw bytes, `struct.pack('I', n)` or `struct.pack('d', x)`. */
  datatype Field = Raw(bytes: seq<byte>) | U32(n: int) | F64(d: Float64)

  predicate Packable(f: Field) {
    f.U32? ==> IsU32(f.n)
  }

  function Pack(f: Field): seq<byte>
    requires Packable(f)
  {
    match f
    case Raw(b) => b
    case U32(n) => PackU32(n)
    case F64(d) => d
  }

  /** What a run of writes leaves behind: the bytes in the file, and whether none raised. */
  datatype Outcome = Outcome(bytes: seq<byte>, ok: bool)

  /**
   * The writes in order; every write after the first field that cannot be
   * packed is never reached.
   */
  function Run(fs: seq<Field>): Outcome {
    if fs == [] then Outcome([], true)
    else
      var prior := Run(fs[..|fs| - 1]);
      var last := fs[|fs| - 1];
      if prior.ok && Packable(last) then Outcome(prior.bytes + Pack(last), true)
      else Outcome(prior.bytes, false)
  }

  predicate AllPackable(fs: seq<Field>) {
    Run(fs).ok
  }

  function Written(fs: seq<Field>): seq<byte> {
    Run(fs).bytes
  }

  // ---------------------------------------------------------------------------
  // The writes `save_to_binary` issues, in order
  // ---------------------------------------------------------------------------

  function PositionFields(p: CartesianPosition): seq<Field> {
    [F64(p.timestamp)] + [F64(p.latitude)] + [F64(p.longitude)] + [F64(p.altitude)] + [F64(p.speed)] + [F64(p.heading)]
  }

  /** The writes of each element of `xs` in turn. */
  function FlatMap<T>(xs: seq<T>, f: T -> seq<Field>): seq<Field> {
    if xs == [] then [] else FlatMap(xs[..|xs| - 1], f) + f(xs[|xs| - 1])
  }

  function PositionsFields(ps: seq<CartesianPosition>): seq<Field> {
    FlatMap(ps, PositionFields)
  }

  /** The id, the three strings as (byte count, bytes), the three times and the position count. */
  function TrackHeadFields(t: Track<CartesianPosition>): seq<Field> {
    var name, kind, aircraft := Utf8.Encode(t.trackName), Utf8.Encode(t.trackType), Utf8.Encode(t.aircraftType);
    [U32(t.trackId)] + [U32(|name|)] + [Raw(name)] + [U32(|kind|)] + [Raw(kind)] + [U32(|aircraft|)] + [Raw(aircraft)]
    + [F64(t.startTime)] + [F64(t.endTime)] + [F64(t.lifetime)] + [U32(|t.positions|)]
  }

  function TrackFields(t: Track<CartesianPosition>): seq<Field> {
    TrackHeadFields(t) + PositionsFields(t.positions)
  }

  function TracksFields(ts: seq<Track<CartesianPosition>>): seq<Field> {
    FlatMap(ts, TrackFields)
  }

  function HeaderFields(count: int): seq<Field> {
    [Raw(MAGIC_NUMBER)] + [U32(VERSION)] + [U32(count)]
  }

  function FileFields(ts: seq<Track<CartesianPosition>>): seq<Field> {
    HeaderFields(|ts|) + TracksFields(ts)
  }

  // ---------------------------------------------------------------------------
  // The wire format itself
  // ---------------------------------------------------------------------------

  /** A track every uint32 field of which `struct.pack('I', …)` accepts. */
  predicate TrackEncodable(t: Track<CartesianPosition>) {
    && IsU32(t.trackId)
    && IsU32(|Utf8.Encode(t.trackName)|)
    && IsU32(|Utf8.Encode(t.trackType)|)
    && IsU32(|Utf8.Encode(t.aircraftType)|)
    && IsU32(|t.positions|)
  }

  predicate TracksEncodable(ts: seq<Track<CartesianPosition>>) {
    forall i :: 0 <= i < |ts| ==> TrackEncodable(ts[i])
  }

  predicate Encodable(ts: seq<Track<CartesianPosition>>) {
    IsU32(|ts|) && TracksEncodable(ts)
  }

  function PositionBytes(p: CartesianPosition): seq<byte> {
    p.timestamp + p.latitude + p.longitude + p.altitude + p.speed + p.heading
  }

  function PositionsBytes(ps: seq<CartesianPosition>): seq<byte> {
    if ps == [] then [] else PositionsBytes(ps[..|ps| - 1]) + PositionBytes(ps[|ps| - 1])
  }

  /** A track's id, its three strings as (byte count, UTF-8 bytes), its three times and its position count. */
  function TrackHeadBytes(t: Track<CartesianPosition>): seq<byte>
    requires TrackEncodable(t)
  {
    var name, kind, aircraft := Utf8.Encode(t.trackName), Utf8.Encode(t.trackType), Utf8.Encode(t.aircraftType);
    PackU32(t.trackId) + PackU32(|name|) + name + PackU32(|kind|) + kind + PackU32(|aircraft|) + aircraft
    + t.startTime + t.endTime + t.lifetime + PackU32(|t.positions|)
  }

  function TrackBytes(t: Track<CartesianPosition>): seq<byte>
    requires TrackEncodable(t)
  {
    TrackHeadBytes(t) + PositionsBytes(t.positions)
  }

  function TracksBytes(ts: seq<Track<CartesianPosition>>): seq<byte>
    requires TracksEncodable(ts)
  {
    if ts == [] then [] else TracksBytes(ts[..|ts| - 1]) + TrackBytes(ts[|ts| - 1])
  }

  /** The file: magic, version, track count, then the tracks in list order. */
  function FileBytes(ts: seq<Track<CartesianPosition>>): seq<byte>
    requires Encodable(ts)
  {
    MAGIC_NUMBER + PackU32(VERSION) + PackU32(|ts|) + TracksBytes(ts)
  }

  function TracksSize(ts: seq<Track<CartesianPosition>>): nat {
    if ts == [] then 0 else TracksSize(ts[..|ts| - 1]) + EncodedSize(ts[|ts| - 1])
  }

  // ---------------------------------------------------------------------------
  // Lemmas: the writes produce the wire format
  // ---------------------------------------------------------------------------

  lemma WrittenSnoc(fs: seq<Field>, f: Field)
    ensures AllPackable(fs + [f]) == (AllPackable(fs) && Packable(f))
    ensures Written(fs + [f]) == if AllPackable(fs) && Packable(f) then Written(fs) + Pack(f) else Written(fs)
  {
    assert (fs + [f])[..|fs|] == fs;
  }

  lemma {:induction false} WrittenAppend(a: seq<Field>, b: seq<Field>)
    ensures AllPackable(a) ==> Written(a + b) == Written(a) + Written(b)
    ensures !AllPackable(a) ==> Written(a + b) == Written(a)
    ensures AllPackable(a + b) <==> AllPackable(a) && AllPackable(b)
    decreases |b|
  {
    if b == [] {
      assert a + b == a;
      assert Written(a) + [] == Written(a);
    } else {
      var b', x := b[..|b| - 1], b[|b| - 1];
      assert b == b' + [x];
      assert a + b == (a + b') + [x];
      WrittenAppend(a, b');
      WrittenSnoc(a + b', x);
      WrittenSnoc(b', x);
      if AllPackable(a + b') && Packable(x) {
        assert (Written(a) + Written(b')) + Pack(x) == Written(a) + (Written(b') + Pack(x));
      }
    }
  }

  /** A write that raises ends the file: nothing after it is written. */
  lemma {:induction false} WrittenStops(fs: seq<Field>, k: nat)
    requires k <= |fs| && !AllPackable(fs[..k])
    ensures Written(fs) == Written(fs[..k]) && !AllPackable(fs)
    decreases |fs| - k
  {
    if k < |fs| {
      var init := fs[..|fs| - 1];
      assert init[..k] == fs[..k];
      WrittenStops(init, k);
    } else {
      assert fs[..k] == fs;
    }
  }

  lemma PositionWritten(p: CartesianPosition)
    ensures AllPackable(PositionFields(p))
    ensures Written(PositionFields(p)) == PositionBytes(p)
  {
    var f1 := [F64(p.timestamp)];
    var f2 := f1 + [F64(p.latitude)];
    var f3 := f2 + [F64(p.longitude)];
    var f4 := f3 + [F64(p.altitude)];
    var f5 := f4 + [F64(p.speed)];
    WrittenSnoc([], F64(p.timestamp));
    assert [] + f1 == f1;
    assert Written(f1) == p.timestamp;
    WrittenSnoc(f1, F64(p.latitude));
    WrittenSnoc(f2, F64(p.longitude));
    WrittenSnoc(f3, F64(p.altitude));
    WrittenSnoc(f4, F64(p.speed));
    WrittenSnoc(f5, F64(p.heading));
  }

  lemma {:induction false} PositionsWritten(ps: seq<CartesianPosition>)
    ensures AllPackable(PositionsFields(ps))
    ensures Written(PositionsFields(ps)) == PositionsBytes(ps)
    decreases |ps|
  {
    if ps != [] {
      var init, p := ps[..|ps| - 1], ps[|ps| - 1];
      PositionsWritten(init);
      PositionWritten(p);
      WrittenAppend(PositionsFields(init), PositionFields(p));
    }
  }

  lemma TrackHeadWritten(t: Track<CartesianPosition>)
    ensures AllPackable(TrackHeadFields(t)) <==> TrackEncodable(t)
    ensures TrackEncodable(t) ==> Written(TrackHeadFields(t)) == TrackHeadBytes(t)
  {
    var name, kind, aircraft := Utf8.Encode(t.trackName), Utf8.Encode(t.trackType), Utf8.Encode(t.aircraftType);
    var h1 := [U32(t.trackId)];
    var h2 := h1 + [U32(|name|)];
    var h3 := h2 + [Raw(name)];
    var h4 := h3 + [U32(|kind|)];
    var h5 := h4 + [Raw(kind)];
    var h6 := h5 + [U32(|aircraft|)];
    var h7 := h6 + [Raw(aircraft)];
    var h8 := h7 + [F64(t.startTime)];
    var h9 := h8 + [F64(t.endTime)];
    var h10 := h9 + [F64(t.lifetime)];
    WrittenSnoc([], U32(t.trackId));
    assert [] + h1 == h1;
    if IsU32(t.trackId) {
      assert Written(h1) == PackU32(t.trackId);
    }
    WrittenSnoc(h1, U32(|name|));
    WrittenSnoc(h2, Raw(name));
    WrittenSnoc(h3, U32(|kind|));
    WrittenSnoc(h4, Raw(kind));
    WrittenSnoc(h5, U32(|aircraft|));
    WrittenSnoc(h6, Raw(aircraft));
    WrittenSnoc(h7, F64(t.startTime));
    WrittenSnoc(h8, F64(t.endTime));
    WrittenSnoc(h9, F64(t.lifetime));
    WrittenSnoc(h10, U32(|t.positions|));
  }

  lemma TrackWritten(t: Track<CartesianPosition>)
    ensures AllPackable(TrackFields(t)) <==> TrackEncodable(t)
    ensures TrackEncodable(t) ==> Written(TrackFields(t)) == TrackBytes(t)
  {
    TrackHeadWritten(t);
    PositionsWritten(t.positions);
    WrittenAppend(TrackHeadFields(t), PositionsFields(t.positions));
  }

  lemma {:induction false} FlatMapAppend<T>(a: seq<T>, b: seq<T>, f: T -> seq<Field>)
    ensures FlatMap(a + b, f) == FlatMap(a, f) + FlatMap(b, f)
    decreases |b|
  {
    if b == [] {
      assert a + b == a;
    } else {
      var b' := b[..|b| - 1];
      assert (a + b)[..|a + b| - 1] == a + b';
      FlatMapAppend(a, b', f);
    }
  }

  lemma {:induction false} TracksWritten(ts: seq<Track<CartesianPosition>>)
    ensures AllPackable(TracksFields(ts)) <==> TracksEncodable(ts)
    ensures TracksEncodable(ts) ==> Written(TracksFields(ts)) == TracksBytes(ts)
    decreases |ts|
  {
    if ts != [] {
      var init, t := ts[..|ts| - 1], ts[|ts| - 1];
      TracksWritten(init);
      TracksSnoc(ts, |ts| - 1);
      assert ts[..|ts|] == ts;
      WrittenAppend(TracksFields(init), TrackFields(t));
    }
  }

  lemma Assoc(a: seq<byte>, b: seq<byte>, c: seq<byte>)
    ensures (a + b) + c == a + (b + c)
  {
  }

  lemma PositionsSnoc(ps: seq<CartesianPosition>, j: nat)
    requires j < |ps|
    ensures PositionsBytes(ps[..j + 1]) == PositionsBytes(ps[..j]) + PositionBytes(ps[j])
    ensures AllPackable(PositionFields(ps[j])) && Written(PositionFields(ps[j])) == PositionBytes(ps[j])
  {
    assert ps[..j + 1][..j] == ps[..j];
    PositionWritten(ps[j]);
  }

  /** One more track: encodable when the last one is, and its bytes follow the earlier ones'. */
  lemma TracksSnoc(ts: seq<Track<CartesianPosition>>, i: nat)
    requires i < |ts|
    ensures TracksEncodable(ts[..i + 1]) <==> TracksEncodable(ts[..i]) && TrackEncodable(ts[i])
    ensures TracksEncodable(ts[..i + 1]) ==> TracksBytes(ts[..i + 1]) == TracksBytes(ts[..i]) + TrackBytes(ts[i])
    ensures TrackEncodable(ts[i]) <==> AllPackable(TrackFields(ts[i]))
    ensures TrackEncodable(ts[i]) ==> Written(TrackFields(ts[i])) == TrackBytes(ts[i])
  {
    assert ts[..i + 1][..i] == ts[..i];
    assert forall k :: 0 <= k < i ==> ts[..i + 1][k] == ts[..i][k];
    TrackWritten(ts[i]);
  }

  /** The writes of one more track follow the earlier tracks' writes. */
  lemma TracksFieldsStep(ts: seq<Track<CartesianPosition>>, i: nat, out: seq<byte>)
    requires i < |ts| && AllPackable(TracksFields(ts[..i]))
    ensures AllPackable(TracksFields(ts[..i + 1])) == AllPackable(TrackFields(ts[i]))
    ensures out + Written(TracksFields(ts[..i])) + Written(TrackFields(ts[i])) == out + Written(TracksFields(ts[..i + 1]))
  {
    assert ts[..i + 1][..i] == ts[..i];
    WrittenAppend(TracksFields(ts[..i]), TrackFields(ts[i]));
  }

  /** The first track whose writes fail ends the file in the middle of its writes. */
  lemma TracksFieldsStop(ts: seq<Track<CartesianPosition>>, i: nat)
    requires i < |ts| && !AllPackable(TracksFields(ts[..i + 1]))
    ensures !AllPackable(TracksFields(ts))
    ensures Written(TracksFields(ts[..i + 1])) == Written(TracksFields(ts))
  {
    var upto, after := ts[..i + 1], ts[i + 1..];
    assert ts == upto + after;
    FlatMapAppend(upto, after, TrackFields);
    WrittenAppend(TracksFields(upto), TracksFields(after));
  }

  lemma HeaderWritten(count: int)
    ensures AllPackable(HeaderFields(count)) <==> IsU32(count)
    ensures IsU32(count) ==> Written(HeaderFields(count)) == MAGIC_NUMBER + PackU32(VERSION) + PackU32(count)
  {
    var h1 := [Raw(MAGIC_NUMBER)];
    var h2 := h1 + [U32(VERSION)];
    WrittenSnoc([], Raw(MAGIC_NUMBER));
    assert [] + h1 == h1;
    assert Written(h1) == MAGIC_NUMBER;
    WrittenSnoc(h1, U32(VERSION));
    WrittenSnoc(h2, U32(count));
  }

  /**
   * The writes succeed exactly when every uint32 field fits, and then the
   * file holds the wire format.
   */
  lemma FileWritten(ts: seq<Track<CartesianPosition>>)
    ensures AllPackable(FileFields(ts)) <==> Encodable(ts)
    ensures Encodable(ts) ==> Written(FileFields(ts)) == FileBytes(ts)
  {
    var h := HeaderFields(|ts|);
    HeaderWritten(|ts|);
    TracksWritten(ts);
    WrittenAppend(h, TracksFields(ts));
  }

  lemma {:induction false} PositionsSize(ps: seq<CartesianPosition>)
    ensures |PositionsBytes(ps)| == 48 * |ps|
    decreases |ps|
  {
    if ps != [] {
      PositionsSize(ps[..|ps| - 1]);
    }
  }

  lemma TrackLength(t: Track<CartesianPosition>)
    requires TrackEncodable(t)
    ensures |TrackBytes(t)| == EncodedSize(t)
  {
    PositionsSize(t.positions);
  }

  lemma {:induction false} TracksLength(ts: seq<Track<CartesianPosition>>)
    requires TracksEncodable(ts)
    ensures |TracksBytes(ts)| == TracksSize(ts)
    decreases |ts|
  {
    if ts != [] {
      TracksLength(ts[..|ts| - 1]);
      TrackLength(ts[|ts| - 1]);
    }
  }

  /** No padding: the file is 12 header bytes plus each track's fields back to back. */
  lemma FileLength(ts: seq<Track<CartesianPosition>>)
    requires Encodable(ts)
    ensures |FileBytes(ts)| == 12 + TracksSize(ts)
  {
    TracksLength(ts);
  }

  // ---------------------------------------------------------------------------
  // The encoder object
  // ---------------------------------------------------------------------------

  /**
   * A run of `f.write(struct.pack(…))` statements, one per field, appended to
   * `out`; it stops at the first `struct.pack('I', …)` that raises.
   */
  method WriteFields(out: seq<byte>, fs: seq<Field>) returns (out': seq<byte>, ok: bool)
    ensures ok == AllPackable(fs)
    ensures out' == out + Written(fs)
  {
    out' := out;
    for i := 0 to |fs|
      invariant out' == out + Written(fs[..i])
      invariant AllPackable(fs[..i])
    {
      assert fs[..i + 1] == fs[..i] + [fs[i]];
      WrittenSnoc(fs[..i], fs[i]);
      if !Packable(fs[i]) {
        WrittenStops(fs, i + 1);
        ok := false;
        return;
      }
      out' := out' + Pack(fs[i]);
    }
    assert fs[..|fs|] == fs;
    ok := true;
  }

  class TrackGenerator {
    var tracks: seq<Track<CartesianPosition>>

    /** The sample generators are not modelled; the tracks are given. */
    constructor (tracks: seq<Track<CartesianPosition>>)
      ensures this.tracks == tracks
    {
      this.tracks := tracks;
    }

    /** One track's writes: its head, then each position's six doubles in list order. */
    static method WriteTrack(out: seq<byte>, t: Track<CartesianPosition>) returns (out': seq<byte>, ok: bool)
      ensures ok == AllPackable(TrackFields(t))
      ensures out' == out + Written(TrackFields(t))
    {
      var head := TrackHeadFields(t);
      out', ok := WriteFields(out, head);
      WrittenAppend(head, PositionsFields(t.positions));
      if !ok { return; }
      TrackHeadWritten(t);
      assert t.positions[..0] == [];
      assert out' + PositionsBytes([]) == out';
      for j := 0 to |t.positions|
        invariant ok && TrackEncodable(t)
        invariant out' == out + TrackHeadBytes(t) + PositionsBytes(t.positions[..j])
      {
        var p := t.positions[j];
        PositionsSnoc(t.positions, j);
        out', ok := WriteFields(out', PositionFields(p));
        Assoc(out + TrackHeadBytes(t), PositionsBytes(t.positions[..j]), PositionBytes(p));
      }
      assert t.positions[..|t.positions|] == t.positions;
      TrackWritten(t);
      Assoc(out, TrackHeadBytes(t), PositionsBytes(t.positions));
    }

    /** The tracks' writes, one track after another in list order, stopping at the first that fails. */
    static method WriteTracks(out: seq<byte>, ts: seq<Track<CartesianPosition>>) returns (out': seq<byte>, ok: bool)
      ensures ok == AllPackable(TracksFields(ts))
      ensures out' == out + Written(TracksFields(ts))
    {
      out' := out;
      assert ts[..0] == [];
      assert out' == out + Written(TracksFields(ts[..0]));
      for i := 0 to |ts|
        invariant AllPackable(TracksFields(ts[..i]))
        invariant out' == out + Written(TracksFields(ts[..i]))
      {
        out', ok := WriteTrack(out', ts[i]);
        TracksFieldsStep(ts, i, out);
        if !ok {
          TracksFieldsStop(ts, i);
          return;
        }
      }
      assert ts[..|ts|] == ts;
      ok := true;
    }

    /**
     * `save_to_binary`: the bytes left in the file, and whether every write
     * succeeded. On success the file is the wire format (`FileWritten`).
     */
    method SaveToBinary() returns (out: seq<byte>, ok: bool)
      ensures ok == AllPackable(FileFields(tracks))
      ensures out == Written(FileFields(tracks))
    {
      var h := HeaderFields(|tracks|);
      out, ok := WriteFields([], h);
      WrittenAppend(h, TracksFields(tracks));
      if !ok { return; }
      assert out == Written(h);
      out, ok := WriteTracks(out, tracks);
    }
  }
}
