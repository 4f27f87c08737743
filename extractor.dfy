/**
 * The binary track decoder (`TrackExtractor.read_binary` and `_read_track`)
 * and the CSV flattening of the loaded tracks (`export_to_csv`).
 *
 * The decoder advances a cursor over the file with `f.read(n)`, which returns
 * fewer than `n` bytes at the end of the data. `struct.unpack` raises
 * `struct.error` when it gets fewer bytes than its format needs, while
 * `bytes.decode('utf-8')` happily decodes a short string read; the failure
 * then comes from the next unpack. The functions below describe where each
 * read starts and ends; the `TrackExtractor` class is proved against them.
 */
module Extractor {
  import opened Common
  import opened Bytes
  import Utf8
  import opened Decimal
  import opened Tracks

  /** What `read_binary` raises. */
  datatype DecodeError =
    | BadMagic(expected: seq<byte>, actual: seq<byte>) // ValueError naming both byte strings
    | StructError                                      // struct.error: a short read
    | UnicodeDecodeError                               // a string field that is not UTF-8

  /** A value read from the file and the cursor position after it. */
  datatype Parsed<+T> = Parsed(value: T, next: nat)

  type Read<+T> = Result<Parsed<T>, DecodeError>

  // ---------------------------------------------------------------------------
  // Reads at a cursor position
  // ---------------------------------------------------------------------------

  /** `struct.unpack('I', f.read(4))[0]` */
  function ReadU32At(data: seq<byte>, pos: nat): (r: Read<int>)
    requires pos <= |data|
    ensures r.Ok? <==> pos + 4 <= |data|
    ensures r.Err? ==> r.error == StructError
    ensures r.Ok? ==> r.value.next == pos + 4
  {
    var b := Take(data, pos, 4);
    if |b| < 4 then Err(StructError) else Ok(Parsed(UnpackU32(b), pos + 4))
  }

  /** `struct.unpack('d', f.read(8))[0]`, the double kept as its bytes. */
  function ReadF64At(data: seq<byte>, pos: nat): (r: Read<Float64>)
    requires pos <= |data|
    ensures r.Ok? <==> pos + 8 <= |data|
    ensures r.Err? ==> r.error == StructError
    ensures r.Ok? ==> r.value.next == pos + 8
  {
    var b := Take(data, pos, 8);
    if |b| < 8 then Err(StructError) else Ok(Parsed(b, pos + 8))
  }

  /**
   * A length-prefixed string: `f.read(n).decode('utf-8')` after reading `n`.
   * A short read is decoded as it is.
   */
  function ReadTextAt(data: seq<byte>, pos: nat): (r: Read<string>)
    requires pos <= |data|
    ensures r.Ok? ==> pos + 4 <= r.value.next <= |data|
  {
    var len :- ReadU32At(data, pos);
    var b := Take(data, len.next, len.value);
    match Utf8.Decode(b)
    case None => Err(UnicodeDecodeError)
    case Some(s) => Ok(Parsed(s, len.next + |b|))
  }

  /** One position dict: six doubles named in file order. */
  function ReadPositionAt(data: seq<byte>, pos: nat): (r: Read<PolarPosition>)
    requires pos <= |data|
    ensures r.Ok? <==> pos + 48 <= |data|
    ensures r.Err? ==> r.error == StructError
    ensures r.Ok? ==> r.value.next == pos + 48
  {
    var timestamp :- ReadF64At(data, pos);
    var range :- ReadF64At(data, timestamp.next);
    var azimuth :- ReadF64At(data, range.next);
    var elevation :- ReadF64At(data, azimuth.next);
    var speed :- ReadF64At(data, elevation.next);
    var heading :- ReadF64At(data, speed.next);
    Ok(Parsed(PolarPosition(timestamp.value, range.value, azimuth.value, elevation.value, speed.value, heading.value),
              heading.next))
  }

  /** `count` positions, one after another. */
  function ReadPositionsAt(data: seq<byte>, pos: nat, count: nat): (r: Read<seq<PolarPosition>>)
    requires pos <= |data|
    ensures r.Ok? <==> pos + 48 * count <= |data|
    ensures r.Err? ==> r.error == StructError
    ensures r.Ok? ==> r.value.next == pos + 48 * count && |r.value.value| == count
    decreases count
  {
    if count == 0 then Ok(Parsed([], pos))
    else
      var init :- ReadPositionsAt(data, pos, count - 1);
      var p :- ReadPositionAt(data, init.next);
      Ok(Parsed(init.value + [p.value], p.next))
  }

  /** The fields `_read_track` reads before the times: the id and the three strings. */
  datatype Labels = Labels(id: int, name: string, kind: string, aircraft: string)

  function ReadLabelsAt(data: seq<byte>, pos: nat): (r: Read<Labels>)
    requires pos <= |data|
    ensures r.Ok? ==> pos + 16 <= r.value.next <= |data|
  {
    var id :- ReadU32At(data, pos);
    var name :- ReadTextAt(data, id.next);
    var kind :- ReadTextAt(data, name.next);
    var aircraft :- ReadTextAt(data, kind.next);
    Ok(Parsed(Labels(id.value, name.value, kind.value, aircraft.value), aircraft.next))
  }

  /** The start time, end time and lifetime. */
  datatype Times = Times(startTime: Float64, endTime: Float64, lifetime: Float64)

  function ReadTimesAt(data: seq<byte>, pos: nat): (r: Read<Times>)
    requires pos <= |data|
    ensures r.Ok? <==> pos + 24 <= |data|
    ensures r.Err? ==> r.error == StructError
    ensures r.Ok? ==> r.value.next == pos + 24
  {
    var startTime :- ReadF64At(data, pos);
    var endTime :- ReadF64At(data, startTime.next);
    var lifetime :- ReadF64At(data, endTime.next);
    Ok(Parsed(Times(startTime.value, endTime.value, lifetime.value), lifetime.next))
  }

  /** `_read_track` */
  function ReadTrackAt(data: seq<byte>, pos: nat): (r: Read<Track<PolarPosition>>)
    requires pos <= |data|
    ensures r.Ok? ==> pos + 44 <= r.value.next <= |data|
  {
    var labels :- ReadLabelsAt(data, pos);
    var times :- ReadTimesAt(data, labels.next);
    var count :- ReadU32At(data, times.next);
    var positions :- ReadPositionsAt(data, count.next, count.value);
    Ok(Parsed(Track(labels.value.id, labels.value.name, labels.value.kind, labels.value.aircraft,
                    times.value.startTime, times.value.endTime, times.value.lifetime, positions.value),
              positions.next))
  }

  /** The tracks `read_binary` has appended, where its reads stopped, and what it raised. */
  datatype Loaded = Loaded(tracks: seq<Track<PolarPosition>>, next: nat, failure: Option<DecodeError>)

  /** A reader of one track at a cursor: `_read_track`, or anything that behaves like it. */
  type TrackReader = nat -> Read<Track<PolarPosition>>

  /** `read` never moves the cursor backwards, nor past `limit`. */
  ghost predicate Advancing(read: TrackReader, limit: nat) {
    forall p: nat :: p <= limit && read(p).Ok? ==> p <= read(p).value.next <= limit
  }

  /** `_read_track` on the bytes of the file, as a reader of the cursor. */
  function ReadTrackIn(data: seq<byte>): (read: TrackReader)
    ensures Advancing(read, |data|)
  {
    (p: nat) => if p <= |data| then ReadTrackAt(data, p) else Err(StructError)
  }

  /**
   * One turn of the loop over `range(num_tracks)`: read a track at the cursor
   * and append it. Once a read has raised, the loop is over and turns change nothing.
   */
  function Turn(read: TrackReader, limit: nat, l: Loaded): (r: Loaded)
    requires Advancing(read, limit) && l.next <= limit
    ensures l.next <= r.next <= limit
    ensures l.failure.Some? ==> r == l
    ensures r.failure.None? ==> l.failure.None? && |r.tracks| == |l.tracks| + 1
    ensures r.failure.Some? ==> |r.tracks| == |l.tracks|
  {
    if l.failure.Some? then l
    else
      match read(l.next)
      case Err(e) => Loaded(l.tracks, l.next, Some(e))
      case Ok(t) => Loaded(l.tracks + [t.value], t.next, None)
  }

  /** The first `count` turns of the loop, from an empty list at `pos`. */
  function Turns(read: TrackReader, limit: nat, pos: nat, count: nat): (r: Loaded)
    requires Advancing(read, limit) && pos <= limit
    ensures pos <= r.next <= limit
    ensures |r.tracks| <= count
    ensures r.failure.None? ==> |r.tracks| == count
    decreases count
  {
    if count == 0 then Loaded([], pos, None) else Turn(read, limit, Turns(read, limit, pos, count - 1))
  }

  /** Once a read has raised, the later turns change nothing. */
  lemma {:induction false} TurnsStop(read: TrackReader, limit: nat, pos: nat, i: nat, count: nat)
    requires Advancing(read, limit) && pos <= limit && i <= count
    requires Turns(read, limit, pos, i).failure.Some?
    ensures Turns(read, limit, pos, count) == Turns(read, limit, pos, i)
    decreases count
  {
    if i < count {
      TurnsStop(read, limit, pos, i, count - 1);
    }
  }

  /** A turn after turns without failure that reads a track appends it and moves the cursor past it. */
  lemma {:induction false} TurnsAppend(read: TrackReader, limit: nat, pos: nat, count: nat,
                                       tracks: seq<Track<PolarPosition>>, next: nat, t: Track<PolarPosition>, after: nat)
    requires Advancing(read, limit) && pos <= limit && count > 0
    requires Turns(read, limit, pos, count - 1) == Loaded(tracks, next, None)
    requires read(next) == Ok(Parsed(t, after))
    ensures Turns(read, limit, pos, count) == Loaded(tracks + [t], after, None)
  {
  }

  /**
   * A read that raises after `k` clean turns ends the loop: the tracks read
   * so far are kept, and the error is the outcome.
   */
  lemma {:induction false} TurnsFailAt(read: TrackReader, limit: nat, pos: nat, k: nat, count: nat,
                                       tracks: seq<Track<PolarPosition>>, next: nat, e: DecodeError)
    requires Advancing(read, limit) && pos <= limit && k < count
    requires Turns(read, limit, pos, k) == Loaded(tracks, next, None) && read(next) == Err(e)
    ensures Turns(read, limit, pos, count) == Loaded(tracks, next, Some(e))
  {
    TurnsStop(read, limit, pos, k + 1, count);
  }

  /**
   * Turns that all read without failure with `read'` read the same with a
   * reader `read` that agrees with `read'` wherever `read'` succeeds.
   */
  lemma {:induction false} TurnsPrefix(read': TrackReader, limit': nat, read: TrackReader, limit: nat, pos: nat, count: nat)
    requires Advancing(read', limit') && Advancing(read, limit) && pos <= limit' <= limit
    requires forall p: nat {:trigger read'(p)} :: p <= limit' && read'(p).Ok? ==> read(p) == read'(p)
    requires Turns(read', limit', pos, count).failure.None?
    ensures Turns(read, limit, pos, count) == Turns(read', limit', pos, count)
    decreases count
  {
    if count > 0 {
      TurnsPrefix(read', limit', read, limit, pos, count - 1);
    }
  }

  /** The loop over `range(num_tracks)` of `read_binary`, from `pos`. */
  function LoadTracks(data: seq<byte>, pos: nat, count: nat): (r: Loaded)
    requires pos <= |data|
    ensures pos <= r.next <= |data|
    ensures |r.tracks| <= count
    ensures r.failure.None? ==> |r.tracks| == count
  {
    Turns(ReadTrackIn(data), |data|, pos, count)
  }

  datatype Header = Header(version: int, count: int)

  /** The magic check and the two header words. */
  function ReadHeaderAt(data: seq<byte>): (r: Read<Header>)
    ensures r.Ok? ==> Take(data, 0, 4) == MAGIC_NUMBER && r.value.next == 12 <= |data|
  {
    var magic := Take(data, 0, 4);
    if magic != MAGIC_NUMBER then Err(BadMagic(MAGIC_NUMBER, magic))
    else
      var version :- ReadU32At(data, 4);
      var count :- ReadU32At(data, 8);
      Ok(Parsed(Header(version.value, count.value), count.next))
  }

  /** The dict `read_binary` returns. */
  datatype FileData = FileData(version: string, tracks: seq<Track<PolarPosition>>)

  /**
   * `read_binary` on the bytes of a file: the dict it returns and where its
   * reads stopped, or what it raised. Bytes after the last track are never read.
   */
  function DecodeFile(data: seq<byte>): (r: Read<FileData>)
    ensures r.Ok? ==> 12 <= r.value.next <= |data|
    ensures r.Ok? ==> |r.value.value.tracks| == UnpackU32(Take(data, 8, 4))
  {
    var header :- ReadHeaderAt(data);
    var loaded := LoadTracks(data, header.next, header.value.count);
    if loaded.failure.Some? then Err(loaded.failure.value)
    else Ok(Parsed(FileData(DecimalString(header.value.version), loaded.tracks), loaded.next))
  }

  /** `self.tracks` once `read_binary` has returned or raised. */
  function TracksAfterRead(data: seq<byte>): seq<Track<PolarPosition>> {
    match ReadHeaderAt(data)
    case Err(_) => []
    case Ok(header) => LoadTracks(data, header.next, header.value.count).tracks
  }

  /** `self.version` once `read_binary` has returned or raised: set as soon as it is read. */
  function VersionAfterRead(data: seq<byte>, previous: Option<int>): Option<int> {
    if |data| >= 8 && Take(data, 0, 4) == MAGIC_NUMBER then Some(UnpackU32(Take(data, 4, 4))) else previous
  }

  // ---------------------------------------------------------------------------
  // The CSV export: one row per position, track-major
  // ---------------------------------------------------------------------------

  /** The header row `export_to_csv` writes, in column order. */
  const CSV_FIELDNAMES: seq<string> := [
    "track_id", "track_name", "track_type", "aircraft_type",
    "track_start_time", "track_end_time", "lifetime",
    "timestamp", "range", "azimuth", "elevation", "speed", "heading"]

  /**
   * One CSV row, a column per header name. The three times are kept as their
   * stored doubles; their rendering through `datetime.fromtimestamp` is not modelled.
   */
  datatype CsvRow = CsvRow(
    trackId: int, trackName: string, trackType: string, aircraftType: string,
    trackStartTime: Float64, trackEndTime: Float64, lifetime: Float64,
    timestamp: Float64, range: Float64, azimuth: Float64, elevation: Float64, speed: Float64, heading: Float64)

  /** The row of position `p` of track `t`: the track's columns, then the position's. */
  function Row(t: Track<PolarPosition>, p: PolarPosition): CsvRow {
    CsvRow(t.trackId, t.trackName, t.trackType, t.aircraftType, t.startTime, t.endTime, t.lifetime,
           p.timestamp, p.range, p.azimuth, p.elevation, p.speed, p.heading)
  }

  /** The rows of track `t` for the positions `ps`, in list order. */
  function PositionRows(t: Track<PolarPosition>, ps: seq<PolarPosition>): seq<CsvRow> {
    if ps == [] then [] else PositionRows(t, ps[..|ps| - 1]) + [Row(t, ps[|ps| - 1])]
  }

  /** All rows: each track's rows in turn, in track order. */
  function CsvRows(ts: seq<Track<PolarPosition>>): seq<CsvRow> {
    if ts == [] then [] else CsvRows(ts[..|ts| - 1]) + PositionRows(ts[|ts| - 1], ts[|ts| - 1].positions)
  }

  function TotalPositions(ts: seq<Track<PolarPosition>>): nat {
    if ts == [] then 0 else TotalPositions(ts[..|ts| - 1]) + |ts[|ts| - 1].positions|
  }

  /** Row `j` of a track's rows is its position `j`. */
  lemma {:induction false} PositionRowsAt(t: Track<PolarPosition>, ps: seq<PolarPosition>)
    ensures |PositionRows(t, ps)| == |ps|
    ensures forall j :: 0 <= j < |ps| ==> PositionRows(t, ps)[j] == Row(t, ps[j])
    decreases |ps|
  {
    if ps != [] {
      PositionRowsAt(t, ps[..|ps| - 1]);
    }
  }

  /** One row per position: the export has as many rows as the tracks have positions. */
  lemma {:induction false} CsvRowCount(ts: seq<Track<PolarPosition>>)
    ensures |CsvRows(ts)| == TotalPositions(ts)
    decreases |ts|
  {
    if ts != [] {
      CsvRowCount(ts[..|ts| - 1]);
      PositionRowsAt(ts[|ts| - 1], ts[|ts| - 1].positions);
    }
  }

  /**
   * Track-major order: position `j` of track `i` is the row after every
   * position of the tracks before it and the first `j` positions of its own.
   */
  lemma {:induction false} CsvRowAt(ts: seq<Track<PolarPosition>>, i: nat, j: nat)
    requires i < |ts| && j < |ts[i].positions|
    ensures TotalPositions(ts[..i]) + j < |CsvRows(ts)|
    ensures CsvRows(ts)[TotalPositions(ts[..i]) + j] == Row(ts[i], ts[i].positions[j])
    decreases |ts|
  {
    var init, last := ts[..|ts| - 1], ts[|ts| - 1];
    CsvRowCount(init);
    PositionRowsAt(last, last.positions);
    if i < |ts| - 1 {
      assert init[..i] == ts[..i] && init[i] == ts[i];
      CsvRowAt(init, i, j);
    } else {
      assert ts[..i] == init;
    }
  }

  // ---------------------------------------------------------------------------
  // The decoder object
  // ---------------------------------------------------------------------------

  /** An open file: its bytes and the read cursor. */
  class ByteReader {
    const data: seq<byte>
    var pos: nat

    predicate Valid()
      reads this
    {
      pos <= |data|
    }

    constructor (data: seq<byte>)
      ensures this.data == data && pos == 0 && Valid()
    {
      this.data := data;
      pos := 0;
    }

    /** `f.read(n)` */
    method Read(n: nat) returns (b: seq<byte>)
      requires Valid()
      modifies this
      ensures Valid()
      ensures b == Take(data, old(pos), n) && pos == old(pos) + |b|
    {
      b := Take(data, pos, n);
      pos := pos + |b|;
    }
  }

  /** A method's outcome paired with the cursor after it, to compare with a read function. */
  function At<T>(r: Result<T, DecodeError>, pos: nat): Read<T> {
    match r
    case Ok(v) => Ok(Parsed(v, pos))
    case Err(e) => Err(e)
  }

  method ReadU32(f: ByteReader) returns (r: Result<int, DecodeError>)
    requires f.Valid()
    modifies f
    ensures f.Valid() && At(r, f.pos) == ReadU32At(f.data, old(f.pos))
  {
    var b := f.Read(4);
    if |b| < 4 {
      return Err(StructError);
    }
    r := Ok(UnpackU32(b));
  }

  method ReadF64(f: ByteReader) returns (r: Result<Float64, DecodeError>)
    requires f.Valid()
    modifies f
    ensures f.Valid() && At(r, f.pos) == ReadF64At(f.data, old(f.pos))
  {
    var b := f.Read(8);
    if |b| < 8 {
      return Err(StructError);
    }
    r := Ok(b);
  }

  method ReadText(f: ByteReader) returns (r: Result<string, DecodeError>)
    requires f.Valid()
    modifies f
    ensures f.Valid() && At(r, f.pos) == ReadTextAt(f.data, old(f.pos))
  {
    var len :- ReadU32(f);
    var b := f.Read(len);
    match Utf8.Decode(b)
    case None =>
      return Err(UnicodeDecodeError);
    case Some(s) =>
      return Ok(s);
  }

  method ReadPosition(f: ByteReader) returns (r: Result<PolarPosition, DecodeError>)
    requires f.Valid()
    modifies f
    ensures f.Valid() && At(r, f.pos) == ReadPositionAt(f.data, old(f.pos))
  {
    var timestamp :- ReadF64(f);
    var range :- ReadF64(f);
    var azimuth :- ReadF64(f);
    var elevation :- ReadF64(f);
    var speed :- ReadF64(f);
    var heading :- ReadF64(f);
    return Ok(PolarPosition(timestamp, range, azimuth, elevation, speed, heading));
  }

  class TrackExtractor {
    var tracks: seq<Track<PolarPosition>>
    var version: Option<int>

    constructor ()
      ensures tracks == [] && version == None
    {
      tracks := [];
      version := None;
    }

    static method ReadLabels(f: ByteReader) returns (r: Result<Labels, DecodeError>)
      requires f.Valid()
      modifies f
      ensures f.Valid() && At(r, f.pos) == ReadLabelsAt(f.data, old(f.pos))
    {
      var id :- ReadU32(f);
      var name :- ReadText(f);
      var kind :- ReadText(f);
      var aircraft :- ReadText(f);
      return Ok(Labels(id, name, kind, aircraft));
    }

    static method ReadTimes(f: ByteReader) returns (r: Result<Times, DecodeError>)
      requires f.Valid()
      modifies f
      ensures f.Valid() && At(r, f.pos) == ReadTimesAt(f.data, old(f.pos))
    {
      var startTime :- ReadF64(f);
      var endTime :- ReadF64(f);
      var lifetime :- ReadF64(f);
      return Ok(Times(startTime, endTime, lifetime));
    }

    /** The position loop of `_read_track`. */
    static method ReadPositions(f: ByteReader, count: nat) returns (r: Result<seq<PolarPosition>, DecodeError>)
      requires f.Valid()
      modifies f
      ensures f.Valid() && At(r, f.pos) == ReadPositionsAt(f.data, old(f.pos), count)
    {
      var positions: seq<PolarPosition> := [];
      ghost var start := f.pos;
      for k := 0 to count
        invariant f.Valid() && start <= f.pos
        invariant ReadPositionsAt(f.data, start, k) == Ok(Parsed(positions, f.pos))
      {
        var p :- ReadPosition(f);
        positions := positions + [p];
      }
      return Ok(positions);
    }

    /** `_read_track`: the id and strings, the times, the position count, then the positions. */
    static method ReadTrack(f: ByteReader, ghost read: TrackReader) returns (r: Result<Track<PolarPosition>, DecodeError>)
      requires f.Valid()
      requires forall p: nat {:trigger ReadTrackAt(f.data, p)} :: p <= |f.data| ==> read(p) == ReadTrackAt(f.data, p)
      modifies f
      ensures f.Valid() && At(r, f.pos) == read(old(f.pos))
    {
      assert read(f.pos) == ReadTrackAt(f.data, f.pos);
      var labels :- ReadLabels(f);
      var times :- ReadTimes(f);
      var count :- ReadU32(f);
      var positions :- ReadPositions(f, count);
      return Ok(Track(labels.id, labels.name, labels.kind, labels.aircraft,
                      times.startTime, times.endTime, times.lifetime, positions));
    }

    /** The start of `read_binary`: the magic check, then `version` and `num_tracks`. */
    method ReadHeader(f: ByteReader) returns (r: Result<Header, DecodeError>)
      requires f.Valid() && f.pos == 0
      modifies this, f
      ensures f.Valid() && At(r, f.pos) == ReadHeaderAt(f.data)
      ensures version == VersionAfterRead(f.data, old(version))
      ensures tracks == old(tracks)
    {
      var magic := f.Read(4);
      if magic != MAGIC_NUMBER {
        return Err(BadMagic(MAGIC_NUMBER, magic));
      }
      var v :- ReadU32(f);
      version := Some(v);
      var count :- ReadU32(f);
      return Ok(Header(v, count));
    }

    /**
     * The loop over `range(num_tracks)`, appending each track as it is read;
     * `read` stands for `_read_track` on the file.
     */
    method ReadTracks(f: ByteReader, count: nat, ghost read: TrackReader) returns (failure: Option<DecodeError>)
      requires f.Valid() && tracks == [] && Advancing(read, |f.data|)
      requires forall p: nat {:trigger ReadTrackAt(f.data, p)} :: p <= |f.data| ==> read(p) == ReadTrackAt(f.data, p)
      modifies this, f
      ensures f.Valid()
      ensures var loaded := Turns(read, |f.data|, old(f.pos), count);
        loaded.tracks == tracks && loaded.failure == failure && (failure.None? ==> loaded.next == f.pos)
      ensures version == old(version)
    {
      ghost var start := f.pos;
      for i := 0 to count
        invariant f.Valid() && start <= f.pos && version == old(version)
        invariant Turns(read, |f.data|, start, i) == Loaded(tracks, f.pos, None)
      {
        ghost var before := f.pos;
        var t := ReadTrack(f, read);
        if t.Err? {
          TurnsStop(read, |f.data|, start, i + 1, count);
          return Some(t.error);
        }
        tracks := tracks + [t.value];
      }
      return None;
    }

    /**
     * `read_binary`: resets `tracks`, checks the magic, sets `version` once it
     * is read, then appends each track as it is read.
     */
    method ReadBinary(data: seq<byte>) returns (r: Read<FileData>)
      modifies this
      ensures r == DecodeFile(data)
      ensures tracks == TracksAfterRead(data)
      ensures version == VersionAfterRead(data, old(version))
    {
      tracks := [];
      var f := new ByteReader(data);
      var header := ReadHeader(f);
      if header.Err? {
        return Err(header.error);
      }
      var failure := ReadTracks(f, header.value.count, ReadTrackIn(data));
      if failure.Some? {
        return Err(failure.value);
      }
      return Ok(Parsed(FileData(DecimalString(header.value.version), tracks), f.pos));
    }
    /**
     * `export_to_csv`: the header, then for each track in turn a row for each
     * of its positions. The rows are returned rather than written to a file.
     */
    method ExportToCsv() returns (header: seq<string>, rows: seq<CsvRow>)
      ensures header == CSV_FIELDNAMES
      ensures rows == CsvRows(tracks)
    {
      header := CSV_FIELDNAMES;
      rows := [];
      for i := 0 to |tracks|
        invariant rows == CsvRows(tracks[..i])
      {
        var track := tracks[i];
        assert tracks[..i + 1][..i] == tracks[..i];
        ghost var before := rows;
        for j := 0 to |track.positions|
          invariant rows == before + PositionRows(track, track.positions[..j])
        {
          assert track.positions[..j + 1][..j] == track.positions[..j];
          rows := rows + [Row(track, track.positions[j])];
        }
        assert track.positions[..|track.positions|] == track.positions;
      }
      assert tracks[..|tracks|] == tracks;
    }
  }
}
