/**
 * The track records the codec writes and reads. The encoder's positions are
 * cartesian (latitude, longitude, altitude); the decoder names the same six
 * doubles polar (range, azimuth, elevation), position by position.
 */
module Tracks {
  import opened Bytes
  import Utf8

  /** b'ATRK', the first four bytes of every track file. */
  const MAGIC_NUMBER: seq<byte> := [0x41, 0x54, 0x52, 0x4B]

  datatype CartesianPosition = CartesianPosition(
    timestamp: Float64, latitude: Float64, longitude: Float64,
    altitude: Float64, speed: Float64, heading: Float64)

  datatype PolarPosition = PolarPosition(
    timestamp: Float64, range: Float64, azimuth: Float64,
    elevation: Float64, speed: Float64, heading: Float64)

  /** One track record; `P` is the position variant. */
  datatype Track<P> = Track(
    trackId: int, trackName: string, trackType: string, aircraftType: string,
    startTime: Float64, endTime: Float64, lifetime: Float64,
    positions: seq<P>)

  /** The decoder's reading of an encoder position: the same doubles, renamed in place. */
  function ToPolar(p: CartesianPosition): PolarPosition {
    PolarPosition(p.timestamp, p.latitude, p.longitude, p.altitude, p.speed, p.heading)
  }

  function PolarPositions(ps: seq<CartesianPosition>): (r: seq<PolarPosition>)
    ensures |r| == |ps| && forall j :: 0 <= j < |ps| ==> r[j] == ToPolar(ps[j])
  {
    seq(|ps|, j requires 0 <= j < |ps| => ToPolar(ps[j]))
  }

  function PolarTrack(t: Track<CartesianPosition>): Track<PolarPosition> {
    Track(t.trackId, t.trackName, t.trackType, t.aircraftType,
          t.startTime, t.endTime, t.lifetime, PolarPositions(t.positions))
  }

  function PolarTracks(ts: seq<Track<CartesianPosition>>): (r: seq<Track<PolarPosition>>)
    ensures |r| == |ts| && forall i :: 0 <= i < |ts| ==> r[i] == PolarTrack(ts[i])
  {
    seq(|ts|, i requires 0 <= i < |ts| => PolarTrack(ts[i]))
  }

  lemma PolarPositionsAppend(ps: seq<CartesianPosition>)
    requires ps != []
    ensures PolarPositions(ps) == PolarPositions(ps[..|ps| - 1]) + [ToPolar(ps[|ps| - 1])]
  {
  }

  /**
   * Bytes one track takes in the file: id, three (length, UTF-8 bytes)
   * strings, three times, position count and six doubles per position.
   */
  function EncodedSize<P>(t: Track<P>): nat {
    4 + 4 + |Utf8.Encode(t.trackName)| + 4 + |Utf8.Encode(t.trackType)| + 4 + |Utf8.Encode(t.aircraftType)|
    + 24 + 4 + 48 * |t.positions|
  }
}
