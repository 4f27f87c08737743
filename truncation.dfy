/**
 * Reading a file cut short. Every reader that succeeds on the first `n`
 * bytes of a file reads what it reads on the whole file, except that a
 * string read at the cut is decoded short (`f.read(n)` returns what is
 * left); the read after such a string always fails. So `read_binary` either
 * raises on a cut file or returns what it returns on the whole file, and a
 * file the encoder wrote, cut anywhere, raises.
 */
module Truncation {
  import opened Common
  import opened Bytes
  import opened Tracks
  import opened Generator
  import opened Extractor
  import opened CodecProperties
  import opened FileProperties

  lemma {:induction false} SlicePrefix(d: seq<byte>, n: nat, lo: nat, hi: nat)
    requires lo <= hi <= n <= |d|
    ensures Slice(d[..n], lo, hi) == Slice(d, lo, hi)
    decreases hi - lo
  {
    if lo < hi {
      SlicePrefix(d, n, lo, hi - 1);
    }
  }

  /** A read that ends before the cut sees the same bytes. */
  lemma {:induction false} TakePrefix(d: seq<byte>, n: nat, p: nat, k: nat)
    requires n <= |d| && p + k <= n
    ensures Take(d[..n], p, k) == Take(d, p, k)
  {
    SlicePrefix(d, n, p, p + k);
  }

  lemma {:induction false} U32Prefix(d: seq<byte>, n: nat, p: nat)
    requires n <= |d| && p <= n && ReadU32At(d[..n], p).Ok?
    ensures ReadU32At(d, p) == ReadU32At(d[..n], p)
  {
    TakePrefix(d, n, p, 4);
  }

  lemma {:induction false} F64Prefix(d: seq<byte>, n: nat, p: nat)
    requires n <= |d| && p <= n && ReadF64At(d[..n], p).Ok?
    ensures ReadF64At(d, p) == ReadF64At(d[..n], p)
  {
    TakePrefix(d, n, p, 8);
  }

  lemma {:induction false} PositionPrefix(d: seq<byte>, n: nat, p: nat)
    requires n <= |d| && p <= n && ReadPositionAt(d[..n], p).Ok?
    ensures ReadPositionAt(d, p) == ReadPositionAt(d[..n], p)
  {
    F64Prefix(d, n, p);
    F64Prefix(d, n, p + 8);
    F64Prefix(d, n, p + 16);
    F64Prefix(d, n, p + 24);
    F64Prefix(d, n, p + 32);
    F64Prefix(d, n, p + 40);
  }

  lemma {:induction false} PositionsPrefix(d: seq<byte>, n: nat, p: nat, count: nat)
    requires n <= |d| && p <= n && ReadPositionsAt(d[..n], p, count).Ok?
    ensures ReadPositionsAt(d, p, count) == ReadPositionsAt(d[..n], p, count)
    decreases count
  {
    if count > 0 {
      var init := ReadPositionsAt(d[..n], p, count - 1);
      PositionsPrefix(d, n, p, count - 1);
      PositionPrefix(d, n, init.value.next);
    }
  }

  lemma {:induction false} TimesPrefix(d: seq<byte>, n: nat, p: nat)
    requires n <= |d| && p <= n && ReadTimesAt(d[..n], p).Ok?
    ensures ReadTimesAt(d, p) == ReadTimesAt(d[..n], p)
  {
    F64Prefix(d, n, p);
    F64Prefix(d, n, p + 8);
    F64Prefix(d, n, p + 16);
  }

  /** A string read before the cut is the same; one that reaches the cut ends at it. */
  lemma {:induction false} TextPrefix(d: seq<byte>, n: nat, p: nat)
    requires n <= |d| && p <= n && ReadTextAt(d[..n], p).Ok?
    ensures ReadTextAt(d, p) == ReadTextAt(d[..n], p) || ReadTextAt(d[..n], p).value.next == n
  {
    U32Prefix(d, n, p);
    var len := UnpackU32(Take(d, p, 4));
    if p + 4 + len <= n {
      TakePrefix(d, n, p + 4, len);
    }
  }

  /** Nothing is left to read at the cut. */
  lemma TextAtCut(d: seq<byte>, n: nat)
    requires n <= |d|
    ensures ReadTextAt(d[..n], n).Err?
  {
  }

  lemma {:induction false} LabelsPrefix(d: seq<byte>, n: nat, p: nat)
    requires n <= |d| && p <= n && ReadLabelsAt(d[..n], p).Ok?
    ensures ReadLabelsAt(d, p) == ReadLabelsAt(d[..n], p) || ReadLabelsAt(d[..n], p).value.next == n
  {
    var c := d[..n];
    U32Prefix(d, n, p);
    var name := ReadTextAt(c, p + 4);
    TextPrefix(d, n, p + 4);
    if name.value.next == n {
      TextAtCut(d, n);
    }
    var kind := ReadTextAt(c, name.value.next);
    TextPrefix(d, n, name.value.next);
    if kind.value.next == n {
      TextAtCut(d, n);
    }
    TextPrefix(d, n, kind.value.next);
  }

  /** A track read that succeeds before the cut reads the same track from the whole file. */
  lemma {:induction false} TrackPrefix(d: seq<byte>, n: nat, p: nat)
    requires n <= |d| && p <= n && ReadTrackAt(d[..n], p).Ok?
    ensures ReadTrackAt(d, p) == ReadTrackAt(d[..n], p)
  {
    var c := d[..n];
    var labels := ReadLabelsAt(c, p);
    LabelsPrefix(d, n, p);
    var times := ReadTimesAt(c, labels.value.next);
    TimesPrefix(d, n, labels.value.next);
    var count := ReadU32At(c, times.value.next);
    U32Prefix(d, n, times.value.next);
    PositionsPrefix(d, n, count.value.next, count.value.value);
  }

  lemma {:induction false} HeaderPrefix(d: seq<byte>, n: nat)
    requires n <= |d| && ReadHeaderAt(d[..n]).Ok?
    ensures ReadHeaderAt(d) == ReadHeaderAt(d[..n])
  {
    TakePrefix(d, n, 0, 4);
    U32Prefix(d, n, 4);
    U32Prefix(d, n, 8);
  }

  /** `read_binary` on a cut file, when it returns, returns what it returns on the whole file. */
  lemma {:induction false} DecodeFilePrefix(d: seq<byte>, n: nat)
    requires n <= |d| && DecodeFile(d[..n]).Ok?
    ensures DecodeFile(d) == DecodeFile(d[..n])
  {
    var c := d[..n];
    HeaderPrefix(d, n);
    var header := ReadHeaderAt(c).value;
    forall p: nat | p <= n && ReadTrackIn(c)(p).Ok?
      ensures ReadTrackIn(d)(p) == ReadTrackIn(c)(p)
    {
      TrackPrefix(d, n, p);
    }
    TurnsPrefix(ReadTrackIn(c), n, ReadTrackIn(d), |d|, 12, header.value.count);
  }

  /** What `save_to_binary` writes, cut short anywhere, makes `read_binary` raise. */
  lemma {:induction false} TruncatedFileFails(ts: seq<Track<CartesianPosition>>, n: nat)
    requires Encodable(ts) && n < |Written(FileFields(ts))|
    ensures DecodeFile(Written(FileFields(ts))[..n]).Err?
  {
    FileWritten(ts);
    var d := FileBytes(ts);
    FileLength(ts);
    BytesAtStart(d, []);
    assert d + [] == d;
    DecodeFileEncoded(d, ts, None);
    if DecodeFile(d[..n]).Ok? {
      DecodeFilePrefix(d, n);
    }
  }
}
