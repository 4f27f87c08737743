/**
 * `read_binary` on whole files: the file `save_to_binary` writes reads back
 * as its tracks (whatever follows it), a wrong magic number is refused, a
 * failing track read keeps the tracks before it, and a file cut short
 * anywhere raises.
 */
module FileProperties {
  import opened Common
  import opened Bytes
  import Utf8
  import opened Decimal
  import opened Tracks
  import opened Generator
  import opened Extractor
  import opened CodecProperties

  /** The twelve header bytes: magic, version, track count. */
  function HeaderBytes(version: int, count: int): seq<byte>
    requires IsU32(version) && IsU32(count)
  {
    MAGIC_NUMBER + PackU32(version) + PackU32(count)
  }

  /** A header as written reads back, and sets `version`. */
  lemma {:induction false} HeaderEncoded(data: seq<byte>, version: int, count: int, previous: Option<int>)
    requires IsU32(version) && IsU32(count) && BytesAt(data, 0, HeaderBytes(version, count))
    ensures ReadHeaderAt(data) == Ok(Parsed(Header(version, count), 12))
    ensures VersionAfterRead(data, previous) == Some(version)
  {
    BytesAtSplit(data, 0, MAGIC_NUMBER + PackU32(version), PackU32(count), 8);
    BytesAtSplit(data, 0, MAGIC_NUMBER, PackU32(version), 4);
    ReadU32Encoded(data, 4, version);
    ReadU32Encoded(data, 8, count);
    UnpackPackU32(version);
  }

  /** `str(1)`, the version string of every file the encoder writes. */
  lemma VersionString()
    ensures DecimalString(VERSION) == "1"
  {
  }

  /**
   * A file that starts with the encoding of `ts` reads back as the polar
   * reading of `ts` with version "1"; the reads stop right after the last
   * track, so whatever bytes follow are never looked at.
   */
  lemma {:induction false} DecodeFileEncoded(data: seq<byte>, ts: seq<Track<CartesianPosition>>, previous: Option<int>)
    requires Encodable(ts) && BytesAt(data, 0, FileBytes(ts))
    ensures DecodeFile(data) == Ok(Parsed(FileData("1", PolarTracks(ts)), 12 + TracksSize(ts)))
    ensures TracksAfterRead(data) == PolarTracks(ts)
    ensures VersionAfterRead(data, previous) == Some(VERSION)
  {
    BytesAtSplit(data, 0, HeaderBytes(VERSION, |ts|), TracksBytes(ts), 12);
    HeaderEncoded(data, VERSION, |ts|, previous);
    LoadTracksEncoded(data, 12, ts);
    VersionString();
  }

  /** Bytes `a` followed by anything hold `a` at the start. */
  lemma BytesAtStart(a: seq<byte>, extra: seq<byte>)
    ensures BytesAt(a + extra, 0, a)
  {
    TakeIsSlice(a + extra, 0, |a|);
    assert (a + extra)[0..|a|] == a;
  }

  /**
   * The round trip: what `save_to_binary` writes for encodable tracks,
   * followed by any bytes, reads back as those tracks, and the reads end
   * exactly where the written bytes end.
   */
  lemma {:induction false} SaveThenRead(ts: seq<Track<CartesianPosition>>, extra: seq<byte>)
    requires Encodable(ts)
    ensures AllPackable(FileFields(ts))
    ensures DecodeFile(Written(FileFields(ts)) + extra)
         == Ok(Parsed(FileData("1", PolarTracks(ts)), |Written(FileFields(ts))|))
  {
    FileWritten(ts);
    FileLength(ts);
    BytesAtStart(FileBytes(ts), extra);
    DecodeFileEncoded(FileBytes(ts) + extra, ts, None);
  }

  /** A file whose first four bytes are not b'ATRK' is refused before anything is read into the extractor. */
  lemma {:induction false} BadMagicRefused(data: seq<byte>, previous: Option<int>)
    requires Take(data, 0, 4) != MAGIC_NUMBER
    ensures DecodeFile(data) == Err(BadMagic(MAGIC_NUMBER, Take(data, 0, 4)))
    ensures TracksAfterRead(data) == [] && VersionAfterRead(data, previous) == previous
  {
  }

  /** A file shorter than the magic number is refused, and the error shows all of it. */
  lemma {:induction false} ShortFileRefused(data: seq<byte>, previous: Option<int>)
    requires |data| < 4
    ensures DecodeFile(data) == Err(BadMagic(MAGIC_NUMBER, data))
    ensures TracksAfterRead(data) == [] && VersionAfterRead(data, previous) == previous
  {
    TakeIsSlice(data, 0, 4);
    assert data[0..|data|] == data;
    BadMagicRefused(data, previous);
  }

  /** A header for `count` tracks, then the encodings of the first few of them. */
  lemma {:induction false} FileStartEncoded(data: seq<byte>, version: int, count: int, ts: seq<Track<CartesianPosition>>,
                                            previous: Option<int>)
    requires IsU32(version) && IsU32(count) && TracksEncodable(ts)
    requires BytesAt(data, 0, HeaderBytes(version, count) + TracksBytes(ts))
    ensures ReadHeaderAt(data) == Ok(Parsed(Header(version, count), 12))
    ensures VersionAfterRead(data, previous) == Some(version)
    ensures LoadTracks(data, 12, |ts|) == Loaded(PolarTracks(ts), 12 + TracksSize(ts), None)
  {
    BytesAtSplit(data, 0, HeaderBytes(version, count), TracksBytes(ts), 12);
    HeaderEncoded(data, version, count, previous);
    LoadTracksEncoded(data, 12, ts);
  }

  /**
   * `read_binary` raises what the first failing track read raises, and the
   * tracks read before it stay in `self.tracks`.
   */
  lemma {:induction false} FailureKeepsEarlierTracks(data: seq<byte>, header: Header, k: nat, tracks: seq<Track<PolarPosition>>,
                                                     next: nat, e: DecodeError)
    requires ReadHeaderAt(data) == Ok(Parsed(header, 12)) && k < header.count
    requires LoadTracks(data, 12, k) == Loaded(tracks, next, None) && ReadTrackAt(data, next) == Err(e)
    ensures DecodeFile(data) == Err(e)
    ensures TracksAfterRead(data) == tracks
  {
    TurnsFailAt(ReadTrackIn(data), |data|, 12, k, header.count, tracks, next, e);
  }

  /** A string whose bytes are not UTF-8 makes the read of its track raise UnicodeDecodeError. */
  lemma {:induction false} InvalidNameRefused(data: seq<byte>, pos: nat, id: int, name: seq<byte>)
    requires IsU32(id) && IsU32(|name|) && Utf8.Decode(name).None?
    requires BytesAt(data, pos, PackU32(id) + PackU32(|name|) + name)
    ensures ReadTrackAt(data, pos) == Err(UnicodeDecodeError)
  {
    BytesAtSplit(data, pos, PackU32(id) + PackU32(|name|), name, pos + 8);
    BytesAtSplit(data, pos, PackU32(id), PackU32(|name|), pos + 4);
    ReadU32Encoded(data, pos, id);
    ReadTextOf(data, pos + 4, name, pos + 8, pos + 8 + |name|);
  }

  /** A track type whose bytes are not UTF-8, after a valid name, makes the read of its track raise UnicodeDecodeError. */
  lemma {:induction false} InvalidTypeRefused(data: seq<byte>, pos: nat, id: int, name: seq<byte>, kind: seq<byte>,
                                              aircraft: seq<byte>)
    requires IsU32(id) && IsU32(|name|) && IsU32(|kind|) && IsU32(|aircraft|)
    requires Utf8.Decode(name).Some? && Utf8.Decode(kind).None?
    requires BytesAt(data, pos, LabelsOf(id, name, kind, aircraft))
    ensures ReadTrackAt(data, pos) == Err(UnicodeDecodeError)
  {
    var p2, p3 := pos + 8 + |name|, pos + 12 + |name| + |kind|;
    LabelsReads(data, pos, id, name, kind, aircraft, p2, p3, p3 + 4 + |aircraft|);
  }

  /** An aircraft type whose bytes are not UTF-8, after a valid name and track type, makes the read of its track raise UnicodeDecodeError. */
  lemma {:induction false} InvalidAircraftRefused(data: seq<byte>, pos: nat, id: int, name: seq<byte>, kind: seq<byte>,
                                                  aircraft: seq<byte>)
    requires IsU32(id) && IsU32(|name|) && IsU32(|kind|) && IsU32(|aircraft|)
    requires Utf8.Decode(name).Some? && Utf8.Decode(kind).Some? && Utf8.Decode(aircraft).None?
    requires BytesAt(data, pos, LabelsOf(id, name, kind, aircraft))
    ensures ReadTrackAt(data, pos) == Err(UnicodeDecodeError)
  {
    var p2, p3 := pos + 8 + |name|, pos + 12 + |name| + |kind|;
    LabelsReads(data, pos, id, name, kind, aircraft, p2, p3, p3 + 4 + |aircraft|);
  }
}
