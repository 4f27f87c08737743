# Airborne track files and their AI tags, in Dafny

This project models the core of RadarDataAnnotation. It covers three parts:

- the binary track file (`.bin`, magic `ATRK`) and the encoder that writes it, `TrackGenerator.save_to_binary`;
- the decoder that reads it back, `TrackExtractor.read_binary` and `_read_track`, and the decoder's CSV flattening, `export_to_csv`;
- the analytics of `TrackTagGenerator`, which give every track of the flattened table its tags:
  - speed bands, g-force load factors, path linearity, altitude behaviour, engine configuration and inferred role;
  - `generate_tags_for_track` and `generate_all_tags`;
  - `get_tag_statistics`.

The modules follow the program:

| Module (file) | Contents |
|---|---|
| `Common` (common.dfy) | `Option` and `Result` |
| `Bytes` (bytes.dfy) | bytes, the `struct` fields `'I'` and `'d'`, and `f.read(n)` at a cursor |
| `Utf8` (utf8.dfy) | strict UTF-8 as Python's `str.encode` and `bytes.decode` use it |
| `Decimal` (decimal.dfy) | `str(n)` |
| `Tracks` (tracks.dfy) | the track records |
| `Generator` (generator.dfy) | the encoder |
| `Extractor` (extractor.dfy) | the decoder and the CSV rows |
| `CodecProperties` (codec_props.dfy) | the per-track round trip |
| `FileProperties` (file_props.dfy) | whole-file properties |
| `Truncation` (truncation.dfy) | cut files |
| `Stats` (stats.dfy) | the NumPy aggregates |
| `Analytics` (analytics.dfy) | the per-track calculators |
| `Tagging` (tagging.dfy) | the tag driver, the tag column and the statistics |

The two classes whose fields change become Dafny classes. Each method is proved against a function of its inputs and old state:

- `TrackExtractor` has `tracks` and `version`, and reads a `ByteReader` (the open file and its cursor).
- `TrackTagGenerator` has the loaded table, the `ai_generated_tags` column and `tags_generated`.

The encoder is a class over a fixed track list whose only operation writes the file. The calculators are functions. The calculators' loops are methods proved equal to those functions: the g-force loop, the per-track column loop, and the split-and-count loop of the statistics.

Points where the model follows the code rather than what the program's docstrings suggest:

- A failed `read_binary` leaves the tracks read before the failure in `tracks`, because they are appended one by one. It does not discard them.
- `version` is set as soon as it is read, so it survives a later failure.
- The tag statistics count tags over the distinct tag strings of the column (`unique()`), not over rows. Two tracks whose tag strings are equal contribute once.
- Heading changes are folded into [-180, 180], both ends included.
- `classify_aircraft_role` raises `KeyError` for a one-sample track slower than 200 knots, because the altitude metrics of such a track have no `avg_elevation`.
- `generate_all_tags` assigns the column by position. The rows of a track get their own tags only when each track's rows are contiguous, which is how `export_to_csv` writes them. `InterleavedRowsMislabelled` shows a row of another track receiving the wrong text.
- The decoder reads the encoder's latitude, longitude and altitude under the names range, azimuth and elevation. The bytes are the same and only the names change (`Tracks.ToPolar`).
- In the g-force loop, the fallback `speeds_ms[-1]` is never taken: there is one heading change fewer than there are samples.

## Model

| member | source | states |
|---|---|---|
| Bytes.PackU32 | track_generator.py:152-153 | `struct.pack('I', n)` accepts exactly 0 <= n < 2^32 and gives four bytes |
| Bytes.UnpackU32 | track_extractor.py:35-36 | four bytes always unpack to a value in the uint32 range |
| Bytes.UnpackPackU32 | track_extractor.py:56 | unpacking what was packed gives the number back |
| Bytes.PackUnpackU32 | track_extractor.py:56 | packing what was unpacked gives the same four bytes |
| Bytes.Take | track_extractor.py:31 | `f.read(n)` at a cursor returns n bytes, or fewer at the end of the data |
| Bytes.TakeIsSlice | track_extractor.py:31 | what `f.read(n)` returns is the slice of the data at the cursor |
| Bytes.SliceIsSubsequence | track_extractor.py:31 | the byte-by-byte slice equals the sequence slice |
| Bytes.SliceSplit | track_extractor.py:59-60 | consecutive reads make up the slice that spans them |
| Utf8.EncodeChar | track_generator.py:161 | one scalar value takes 1 to 4 bytes, the later ones continuation bytes |
| Utf8.Encode | track_generator.py:161 | an encoding is at least as long as its string |
| Utf8.DecodeFirst | track_extractor.py:60 | a decoded sequence takes between 1 and 4 bytes of the input |
| Utf8.DecodeFirstEncodeChar | track_extractor.py:60 | the decoder reads the encoder's form of a character back, whatever follows it |
| Utf8.EncodeCharDecodeFirst | track_extractor.py:60 | the decoder accepts only shortest forms: what it reads re-encodes to the same bytes |
| Utf8.DecodeEncode | track_extractor.py:59-68 | `s.encode('utf-8').decode('utf-8') == s` for every string |
| Utf8.EncodeDecode | track_extractor.py:59-68 | bytes the decoder accepts are exactly the encoding of what it returns |
| Utf8.EncodeInjective | track_generator.py:161-163 | different strings have different encodings |
| Decimal.DecimalString | track_extractor.py:49 | `str(n)` is a nonempty run of digits without a leading zero (unless n is 0) |
| Decimal.DecimalRoundTrip | track_extractor.py:49 | the digits of `str(n)` denote n |
| Tracks.PolarPositions | track_extractor.py:79-88 | the decoder's positions are the encoder's, one for one, with the six doubles renamed |
| Tracks.PolarTracks | track_extractor.py:90-99 | the decoder's tracks are the encoder's, one for one, with the positions renamed |
| Tracks.PolarPositionsAppend | track_extractor.py:88 | one more position read appends its renaming |
| Generator.WrittenSnoc | track_generator.py:149-188 | a write adds its packed bytes when every write so far succeeded, and nothing after a failure |
| Generator.WrittenAppend | track_generator.py:149-188 | the writes of two runs are the first run's bytes followed by the second's; after a failure nothing follows; both succeed iff each does |
| Generator.WrittenStops | track_generator.py:152-153 | once a `struct.pack('I')` raises, the file holds only what was written before it |
| Generator.PositionWritten | track_generator.py:183-188 | the six doubles of a position always pack, to the 48 bytes of the position |
| Generator.PositionsWritten | track_generator.py:182-188 | the position loop always succeeds and writes the positions back to back in list order |
| Generator.PositionsSize | track_generator.py:141-147 | each position takes 48 bytes |
| Generator.TrackHeadWritten | track_generator.py:158-181 | a track's head writes succeed iff its id, the three UTF-8 byte counts and the position count fit in uint32, and then give the head bytes |
| Generator.TrackWritten | track_generator.py:156-188 | one track's writes succeed iff the track is encodable, and then give its wire bytes |
| Generator.FlatMapAppend | track_generator.py:156 | the writes of a concatenated list are the writes of the parts in order |
| Generator.TracksWritten | track_generator.py:156-188 | the track loop succeeds iff every track is encodable, and then writes the tracks back to back in list order |
| Generator.TracksSnoc | track_generator.py:156-188 | one more track is encodable iff the earlier ones and it are, and its bytes follow theirs |
| Generator.TracksFieldsStep | track_generator.py:156-188 | after clean tracks, the next track's writes follow theirs |
| Generator.TracksFieldsStop | track_generator.py:156-188 | the first track whose writes fail ends the file and the run fails |
| Generator.HeaderWritten | track_generator.py:150-153 | the header writes succeed iff the track count fits in uint32, and then give magic, version 1 and the count |
| Generator.FileWritten | track_generator.py:122-188 | `save_to_binary` succeeds iff the track count and every track's uint32 fields fit, and then writes exactly the documented format |
| Generator.TrackLength | track_generator.py:129-147 | a track takes 44 bytes, plus its three UTF-8 strings, plus 48 per position |
| Generator.TracksLength | track_generator.py:129-147 | the tracks take the sum of their sizes: no padding between them |
| Generator.FileLength | track_generator.py:125-147 | the file is 12 header bytes plus the tracks' sizes |
| Generator.WriteFields | track_generator.py:149-188 | a run of writes appends the bytes of the fields before the first that cannot be packed, and reports whether none raised |
| Generator.TrackGenerator.constructor | track_generator.py:18-19 | the generator holds the tracks it is given |
| Generator.TrackGenerator.WriteTrack | track_generator.py:158-188 | one track's writes: its head, then each position's six doubles in list order, stopping at the first failure |
| Generator.TrackGenerator.WriteTracks | track_generator.py:156-188 | the tracks one after another in list order, stopping at the first failing write |
| Generator.TrackGenerator.SaveToBinary | track_generator.py:122-188 | the file is the bytes of the header and track writes up to the first raising pack, and `ok` holds iff none raised |
| Extractor.ReadU32At | track_extractor.py:56 | an uint32 read succeeds iff four bytes remain, moves the cursor by 4, and otherwise raises `struct.error` |
| Extractor.ReadF64At | track_extractor.py:71 | a double read succeeds iff eight bytes remain, moves the cursor by 8, and otherwise raises `struct.error` |
| Extractor.ReadTextAt | track_extractor.py:59-60 | a string read never moves the cursor back or past the end, and moves it by at least the length word |
| Extractor.ReadPositionAt | track_extractor.py:80-87 | a position read succeeds iff 48 bytes remain, and moves the cursor by 48 |
| Extractor.ReadPositionsAt | track_extractor.py:76-88 | `count` positions read iff 48·count bytes remain, giving exactly `count` positions |
| Extractor.ReadLabelsAt | track_extractor.py:56-68 | the id and three strings take at least 16 bytes and stay within the data |
| Extractor.ReadTimesAt | track_extractor.py:71-73 | the three times read iff 24 bytes remain, and move the cursor by 24 |
| Extractor.ReadTrackAt | track_extractor.py:53-99 | a successful `_read_track` consumes at least 44 bytes and stays within the data |
| Extractor.ReadTrackIn | track_extractor.py:44 | `_read_track` never moves the cursor backwards or past the end |
| Extractor.Turn | track_extractor.py:43-45 | one loop turn appends exactly one track or records a failure, and changes nothing after a failure |
| Extractor.Turns | track_extractor.py:43-45 | the loop appends at most `count` tracks, exactly `count` when nothing raised |
| Extractor.TurnsStop | track_extractor.py:43-45 | once a read has raised, later turns change nothing |
| Extractor.TurnsAppend | track_extractor.py:43-45 | a successful read after clean turns appends its track and moves the cursor past it |
| Extractor.TurnsFailAt | track_extractor.py:43-45 | a read that raises ends the loop with the tracks read so far and its error |
| Extractor.TurnsPrefix | track_extractor.py:43-45 | the loop depends only on the reads it performs |
| Extractor.LoadTracks | track_extractor.py:42-45 | the loop over `range(num_tracks)` on the file keeps the cursor in the data and yields `num_tracks` tracks when nothing raised |
| Extractor.ReadHeaderAt | track_extractor.py:31-36 | a header is read only when the file starts with `ATRK`, and it ends at byte 12 |
| Extractor.DecodeFile | track_extractor.py:21-51 | a returned file holds exactly as many tracks as its count word says |
| Extractor.PositionRowsAt | track_extractor.py:126-142 | a track gives one CSV row per position, in position order |
| Extractor.CsvRowCount | track_extractor.py:125-142 | the export has one row per position of every track |
| Extractor.CsvRowAt | track_extractor.py:125-142 | position j of track i is the row after all positions of earlier tracks and the first j of its own |
| Extractor.ByteReader.constructor | track_extractor.py:29 | an opened file is read from its first byte |
| Extractor.ByteReader.Read | track_extractor.py:31 | `f.read(n)` returns the bytes at the cursor (fewer at the end) and advances past them |
| Extractor.ReadU32 | track_extractor.py:56 | the method's outcome and cursor are those of `ReadU32At` |
| Extractor.ReadF64 | track_extractor.py:71 | the method's outcome and cursor are those of `ReadF64At` |
| Extractor.ReadText | track_extractor.py:59-60 | the method's outcome and cursor are those of `ReadTextAt` |
| Extractor.ReadPosition | track_extractor.py:80-87 | the method's outcome and cursor are those of `ReadPositionAt` |
| Extractor.TrackExtractor.constructor | track_extractor.py:17-19 | a new extractor has no tracks and no version |
| Extractor.TrackExtractor.ReadLabels | track_extractor.py:56-68 | the method's outcome and cursor are those of `ReadLabelsAt` |
| Extractor.TrackExtractor.ReadTimes | track_extractor.py:71-73 | the method's outcome and cursor are those of `ReadTimesAt` |
| Extractor.TrackExtractor.ReadPositions | track_extractor.py:76-88 | the position loop's outcome and cursor are those of `ReadPositionsAt` |
| Extractor.TrackExtractor.ReadTrack | track_extractor.py:53-99 | `_read_track`'s outcome and cursor are those of `ReadTrackAt` |
| Extractor.TrackExtractor.ReadHeader | track_extractor.py:31-36 | the magic check and header words match `ReadHeaderAt`; `version` is set once read; the tracks are untouched |
| Extractor.TrackExtractor.ReadTracks | track_extractor.py:43-45 | the loop leaves in `tracks` what `Turns` appends and reports its failure |
| Extractor.TrackExtractor.ReadBinary | track_extractor.py:21-51 | `read_binary` returns or raises as `DecodeFile` says, leaves the tracks read so far in `tracks`, and sets `version` as soon as it is read |
| Extractor.TrackExtractor.ExportToCsv | track_extractor.py:114-145 | the header is the 13 field names in order, and the rows are each track's positions in track order |
| CodecProperties.ReadU32Encoded | track_extractor.py:56 | a packed uint32 reads back as its value |
| CodecProperties.ReadF64Encoded | track_extractor.py:71 | a packed double reads back as its bytes |
| CodecProperties.ReadTextEncoded | track_extractor.py:59-60 | a (length, UTF-8 bytes) string reads back as the string, ending after its bytes |
| CodecProperties.ReadPositionEncoded | track_extractor.py:80-87 | a written position reads back as its renaming |
| CodecProperties.ReadPositionsEncoded | track_extractor.py:76-88 | written positions read back in order, ending after the last |
| CodecProperties.ReadLabelsOf | track_extractor.py:56-68 | the written id and strings read back as themselves |
| CodecProperties.ReadTimesEncoded | track_extractor.py:71-73 | the written times read back |
| CodecProperties.ReadTrackEncoded | track_extractor.py:53-99 | the bytes `save_to_binary` writes for a track read back as that track, ending after them |
| CodecProperties.ReadTextSize | track_extractor.py:59-68 | on any bytes, a string read that returns ends 4 bytes plus the UTF-8 length of its string further on, even when cut short |
| CodecProperties.ReadLabelsSize | track_extractor.py:56-68 | on any bytes, a labels read that returns ends 16 bytes plus the UTF-8 lengths of its three strings further on |
| CodecProperties.ReadTrackSize | track_extractor.py:53-88 | on any bytes, a track read that returns consumed exactly `EncodedSize` of the track it returned, so the next track starts right after it |
| CodecProperties.LoadTracksEncoded | track_extractor.py:43-45 | written tracks read back in order with no failure, ending after the last |
| FileProperties.HeaderEncoded | track_extractor.py:31-36 | a written header passes the magic check, yields its version and count, and sets `version` |
| FileProperties.VersionString | track_extractor.py:49 | files written by the encoder report version "1" |
| FileProperties.DecodeFileEncoded | track_extractor.py:21-51 | a file that starts with the encoding of some tracks reads back as them, with version "1", and the reads stop after the last track |
| FileProperties.SaveThenRead | track_extractor.py:21-51 | round trip: whatever follows the file, `read_binary` of the encoder's output returns the tracks it was given |
| FileProperties.BadMagicRefused | track_extractor.py:27-33 | a wrong signature raises ValueError showing the bytes read; `tracks` has been reset to `[]` and `version` keeps its earlier value |
| FileProperties.ShortFileRefused | track_extractor.py:31-33 | a file shorter than four bytes is refused as a bad signature |
| FileProperties.FileStartEncoded | track_extractor.py:27-45 | a header followed by the encodings of some tracks reads those tracks |
| FileProperties.FailureKeepsEarlierTracks | track_extractor.py:42-45 | `read_binary` raises the first track read's error and keeps the tracks read before it |
| FileProperties.InvalidNameRefused | track_extractor.py:59-60 | a name whose bytes are not UTF-8 makes the track read raise UnicodeDecodeError |
| FileProperties.InvalidTypeRefused | track_extractor.py:63-64 | a valid name followed by a track type whose bytes are not UTF-8 makes the track read raise UnicodeDecodeError |
| FileProperties.InvalidAircraftRefused | track_extractor.py:67-68 | a valid name and track type followed by an aircraft type whose bytes are not UTF-8 make the track read raise UnicodeDecodeError |
| Truncation.TakePrefix | track_extractor.py:31 | a read before the cut sees the same bytes |
| Truncation.U32Prefix | track_extractor.py:56 | an uint32 read that succeeds on a cut file agrees with the whole file |
| Truncation.F64Prefix | track_extractor.py:71 | a double read that succeeds on a cut file agrees with the whole file |
| Truncation.PositionPrefix | track_extractor.py:80-87 | a position read that succeeds on a cut file agrees with the whole file |
| Truncation.PositionsPrefix | track_extractor.py:76-88 | the position loop, when it succeeds on a cut file, agrees with the whole file |
| Truncation.TimesPrefix | track_extractor.py:71-73 | the times read, when it succeeds on a cut file, agrees with the whole file |
| Truncation.TextPrefix | track_extractor.py:59-60 | a string read on a cut file agrees with the whole file or ends exactly at the cut |
| Truncation.TextAtCut | track_extractor.py:59-60 | nothing can be read at the cut |
| Truncation.LabelsPrefix | track_extractor.py:56-68 | the id and strings on a cut file agree with the whole file or end at the cut |
| Truncation.TrackPrefix | track_extractor.py:53-99 | a track read that succeeds on a cut file reads the same track from the whole file |
| Truncation.HeaderPrefix | track_extractor.py:31-36 | a header read on a cut file agrees with the whole file |
| Truncation.DecodeFilePrefix | track_extractor.py:21-51 | `read_binary` on a cut file, when it returns, returns what it returns on the whole file |
| Truncation.TruncatedFileFails | track_extractor.py:21-51 | the encoder's output cut short anywhere makes `read_binary` raise |
| Stats.Max | track_tag_generator.py:65 | `np.max` is an element and no element exceeds it |
| Stats.Min | track_tag_generator.py:66 | `np.min` is an element and no element is below it |
| Stats.SquaredDeviations | track_tag_generator.py:67 | squared deviations are never negative |
| Stats.Variance | track_tag_generator.py:67 | the square of `np.std` is never negative |
| Stats.AbsAll | track_tag_generator.py:191 | `np.abs` keeps the length |
| Stats.Diff | track_tag_generator.py:108 | `np.diff` has one element fewer (none for an empty array) |
| Stats.SumDiff | track_tag_generator.py:212 | the differences add up to last minus first |
| Stats.VarianceConstant | track_tag_generator.py:67 | equal values have that value as mean and a standard deviation of 0 |
| Stats.MeanBetween | track_tag_generator.py:64-66 | the mean lies between `np.min` and `np.max` |
| Analytics.Speeds | track_tag_generator.py:63 | the speed column of the track, sample by sample |
| Analytics.Headings | track_tag_generator.py:98 | the heading column of the track, sample by sample |
| Analytics.Elevations | track_tag_generator.py:201 | the elevation column of the track, sample by sample |
| Analytics.SpeedBand | track_tag_generator.py:72-81 | exactly one speed band, each band iff the average lies in its range, each bound in the band above it |
| Analytics.SpeedBandMonotone | track_tag_generator.py:20-26 | a faster average never gets a slower band |
| Analytics.Variability | track_tag_generator.py:84-87 | `variable_speed` iff the deviation exceeds 50 knots, `constant_speed` iff below 10 |
| Analytics.SpeedTagList | track_tag_generator.py:71-91 | the band first and no other band; variability and `supersonic_capable` (max above 600) iff their thresholds hold |
| Analytics.SpeedTags | track_tag_generator.py:61-94 | the metrics are the mean, largest, smallest and variance of the speeds, and the tags are those of the mean, variance and largest speed |
| Analytics.SpeedMetricsOfTrack | track_tag_generator.py:63-94 | min <= avg <= max; max is a sample and bounds all samples; `supersonic_capable` iff some sample exceeds 600 knots |
| Analytics.SteadySpeedIsConstant | track_tag_generator.py:84-87 | a track flown at one speed is `constant_speed`, never `variable_speed`, averaging that speed |
| Analytics.NormalizeDelta | track_tag_generator.py:110-112 | the correction shifts by at most a full turn, brings any change under a full turn into [-180, 180], and leaves [-180, 180] alone |
| Analytics.WrapAroundTurn | track_tag_generator.py:110 | 359° to 1° is a change of +2° |
| Analytics.HeadingDeltas | track_tag_generator.py:108-112 | one corrected change per pair of consecutive samples |
| Analytics.DeltasWithinHalfTurn | track_tag_generator.py:108-112 | between compass headings every corrected change is within half a turn |
| Analytics.LoadSquared | track_tag_generator.py:123-134 | the squared load factor is at least 1 (1g) |
| Analytics.LoadSteps | track_tag_generator.py:124-134 | the loop's step-by-step rate, speed, acceleration and g give exactly `LoadSquared` |
| Analytics.Loads | track_tag_generator.py:121-135 | the load factors are each at least 1 and at most one per change; there are none iff no change exceeds 0.1° |
| Analytics.GForceBand | track_tag_generator.py:146-157 | exactly one maneuvering band, each iff the maximum load lies in its range, each bound in the band below it |
| Analytics.LoadsFromChanges | track_tag_generator.py:121-135 | each load factor is that of some change above 0.1° |
| Analytics.LoadsCoverChanges | track_tag_generator.py:121-135 | every change above 0.1° has its load factor among the loads |
| Analytics.MaxOfLoads | track_tag_generator.py:137-140 | the largest load is that of some change above 0.1° and bounds the load of every such change |
| Analytics.GForces | track_tag_generator.py:96-159 | no tag and `max_g` 0 iff fewer than 3 samples or no change above 0.1°; otherwise `max_g` is at least 1 and the one tag is its band |
| Analytics.LoadFactors | track_tag_generator.py:118-135 | the loop collects exactly `Loads` of the heading changes |
| Analytics.CalculateGForces | track_tag_generator.py:96-159 | the method returns `GForces` of the track |
| Analytics.SteadyHeadingHasNoLoad | track_tag_generator.py:121-138 | a track that holds its heading gets no g-force tag and `max_g` 0 |
| Analytics.LoadGrowsWithSpeed | track_tag_generator.py:124-134 | the same turn flown faster never lowers the load factor |
| Analytics.PathShape | track_tag_generator.py:178-184 | exactly one path shape, first; `straight_flight` with `linear_path` iff the deviation is under 5; `mostly_linear` under 15; else `curved_path` |
| Analytics.TurnTags | track_tag_generator.py:191-195 | `sharp_turns` iff the largest change exceeds 90°, `moderate_turns` iff it lies in (45, 90] |
| Analytics.LinearityTagsShapeFirst | track_tag_generator.py:176-195 | the path shape is the first linearity tag and the only one |
| Analytics.LinearityTagClasses | track_tag_generator.py:176-195 | one path shape first; `straight_flight` iff `linear_path`; `serpentine_pattern` only with `curved_path`; never both turn tags; `sharp_turns` iff above 90° |
| Analytics.LinearityTagsShape | track_tag_generator.py:178-188 | `straight_flight` iff `linear_path`; `serpentine_pattern` only with `curved_path` |
| Analytics.LinearityTagsTurns | track_tag_generator.py:191-195 | never both turn tags; `sharp_turns` iff above 90° |
| Analytics.Linearity | track_tag_generator.py:161-197 | under 3 samples no tags and `heading_std` 0; otherwise the tags of the deviation of the corrected heading changes |
| Analytics.MaxLoadOfTrack | track_tag_generator.py:121-140 | `max_g` is the load of some change above 0.1° at the speed of the sample before it, and no such change has a larger one |
| Analytics.MaxTurnOfTrack | track_tag_generator.py:191 | `max_turn` is the largest absolute corrected change |
| Analytics.LinearityClasses | track_tag_generator.py:161-197 | one path shape per track; `sharp_turns` iff some heading change exceeds 90° |
| Analytics.MaxTurnAtMostHalfTurn | track_tag_generator.py:191 | between compass headings `max_turn` is at most 180° |
| Analytics.AltitudeBand | track_tag_generator.py:217-224 | exactly one altitude band, each iff the average lies in its range, each bound in the band below it |
| Analytics.ChangePattern | track_tag_generator.py:227-230 | `level_flight` iff the spread is under 1000 ft, `large_altitude_change` iff above 20000 |
| Analytics.Direction | track_tag_generator.py:233-236 | `climbing` iff the mean climb exceeds 100 ft, `descending` iff below -100 |
| Analytics.AltitudeTagsBandFirst | track_tag_generator.py:214-236 | the band is the first altitude tag and the only one |
| Analytics.AltitudeTagClasses | track_tag_generator.py:214-236 | one band first; never both change patterns; climbing and descending as the mean climb says |
| Analytics.AltitudeTagsChange | track_tag_generator.py:227-230 | never both `level_flight` and `large_altitude_change` |
| Analytics.AltitudeTagsDirection | track_tag_generator.py:233-236 | `climbing` and `descending` iff their thresholds hold |
| Analytics.Altitude | track_tag_generator.py:199-238 | under 2 samples no tags and no `avg_elevation`; otherwise the change is the largest minus the smallest elevation (>= 0), `avg_elevation` their mean, and the tags are those of the average, the change and the mean climb |
| Analytics.MeanClimb | track_tag_generator.py:212-236 | the mean climb exceeds 100 (is below -100) iff the overall rise exceeds 100 (is below -100) per interval |
| Analytics.AltitudeClasses | track_tag_generator.py:199-238 | one band per track, never both change patterns; climbing iff the track ends more than 100 ft per interval above its start, descending likewise below |
| Analytics.Lower | track_tag_generator.py:243 | lower-casing keeps the length |
| Analytics.FirstConfig | track_tag_generator.py:242-244 | the first table model contained in the type, ignoring case, or none iff no model is |
| Analytics.EngineTableConfigs | track_tag_generator.py:40-49 | every table entry names a known engine configuration |
| Analytics.EngineTag | track_tag_generator.py:240-252 | a table match wins; with none, any twin hint gives `twin_engine`; with neither, any four-engine hint gives `four_engine`; `unknown_engine_config` is given iff nothing matches |
| Analytics.EngineConfiguration | track_tag_generator.py:240-252 | one engine tag, reported as `engine_config`, "unknown" for the unknown tag |
| Analytics.Boeing737Variant | track_tag_generator.py:41 | "Boeing 737-800" is twin-engine by the first table entry |
| Analytics.Bare787Hint | track_tag_generator.py:247-248 | a bare "787" matches no table model and is twin-engine by its hint |
| Analytics.RoleOf | track_tag_generator.py:254-282 | KeyError iff the average is under 200 knots and there is no `avg_elevation`; otherwise only role tags, fighter, tactical, airliner and general aviation each iff its rule holds |
| Analytics.RolesExclusive | track_tag_generator.py:268-280 | fighter and tactical exclude each other; airliner excludes fighter, tactical and general aviation; fighter excludes general aviation |
| Analytics.RoleInputs | track_tag_generator.py:259-266 | the role reads the mean speed, the largest load, the heading-change variance and, from two samples on, the mean elevation; `max_g` is 0 under three samples, and the mean of one sample is its speed |
| Analytics.RoleOfTrack | track_tag_generator.py:254-282 | KeyError exactly for a one-sample track slower than 200 knots; otherwise only role tags, with fighter, tactical, airliner and general aviation each iff its rule holds of the track's mean speed, largest load, heading-change variance and mean elevation; no fighter or tactical tag under 3 samples |
| Tagging.CountOf | track_tag_generator.py:359 | the count is at most the length and 0 iff the value is absent |
| Tagging.Distinct | track_tag_generator.py:339 | `unique()` holds every value once and exactly the values of the input |
| Tagging.DistinctSnoc | track_tag_generator.py:339 | a new value is appended at the end; a repeated one changes nothing |
| Tagging.CountOfNoDuplicates | track_tag_generator.py:339 | a value of a duplicate-free list occurs once |
| Tagging.Repeat | track_tag_generator.py:360-361 | n copies of a value |
| Tagging.FirstSep | track_tag_generator.py:397 | the first `"; "` at or after the start, or the end when there is none |
| Tagging.Split | track_tag_generator.py:397 | `split('; ')` gives at least one piece |
| Tagging.SplitCons | track_tag_generator.py:397 | splitting `x + "; " + rest` gives x, then the pieces of rest |
| Tagging.SplitJoin | track_tag_generator.py:361 | `'; '.join` followed by `split('; ')` gives the tags back when none holds `"; "` |
| Tagging.Samples | track_tag_generator.py:63 | the numeric columns of the rows, row by row |
| Tagging.Ids | track_tag_generator.py:286 | the `track_id` column, row by row |
| Tagging.TrackRows | track_tag_generator.py:286 | the rows of one track: as many as the id occurs, all from the table and with that id |
| Tagging.TrackRowsInOrder | track_tag_generator.py:286 | the rows of one track keep the table's order: a row of the track comes after as many of its rows as precede it in the table |
| Tagging.TrackTagsOrdered | track_tag_generator.py:284-328 | a track's tags come calculator by calculator; the first is its speed band and the last `<track_type>_track` |
| Tagging.TrackTagsOneEngine | track_tag_generator.py:314-318 | exactly one tag of a track is an engine configuration |
| Tagging.ColumnLength | track_tag_generator.py:339-364 | the tag column has one entry per row, whatever the order of the rows |
| Tagging.ColumnContiguous | track_tag_generator.py:339-364 | when each track's rows are contiguous, every row gets its own track's text |
| Tagging.InterleavedRowsMislabelled | track_tag_generator.py:358-364 | with ids a, b, a the row of track b gets the text of track a |
| Tagging.InterleavedCounts | track_tag_generator.py:359 | with ids a, b, a track a has two rows and track b one |
| Tagging.GroupedTagsSucceed | track_tag_generator.py:344-361 | the column is built iff no track's tags raise |
| Tagging.GroupedTagsColumn | track_tag_generator.py:344-361 | a built column is each track's text repeated once per row of that track, in id order |
| Tagging.GroupedTagsError | track_tag_generator.py:344-361 | a failed run carries the error of one of its tracks |
| Tagging.GroupedStep | track_tag_generator.py:344-361 | one more track either fails the run with its error or appends its copies |
| Tagging.GroupedErrorStays | track_tag_generator.py:344-361 | once a track fails, the run fails with that error |
| Tagging.AllTagsSucceed | track_tag_generator.py:330-364 | `generate_all_tags` succeeds iff no row's track raises |
| Tagging.AllTagsLength | track_tag_generator.py:358-364 | the column has one entry per row |
| Tagging.AllTagsContiguous | track_tag_generator.py:358-364 | with contiguous tracks, every row holds the joined tags of its own track |
| Tagging.TallyCounts | track_tag_generator.py:399-400 | `Counter` holds exactly the tags that occur, each with its number of occurrences |
| Tagging.StatisticsIgnoreRepeatedRows | track_tag_generator.py:396-400 | another row with a tag string already in the column leaves the statistics unchanged |
| Tagging.TrackTagGenerator.constructor | track_tag_generator.py:15-17 | a new generator has no data and no tags |
| Tagging.TrackTagGenerator.LoadCsv | track_tag_generator.py:51-59 | loading replaces the table with the file's rows and its `ai_generated_tags` column when the file has one (as `save_tagged_csv` writes it), and keeps `tags_generated` |
| Tagging.TrackTagGenerator.GenerateTagsForTrack | track_tag_generator.py:284-328 | the method returns the tags of `TagsForTrack`, or what the role raises |
| Tagging.TrackTagGenerator.AppendCopies | track_tag_generator.py:359-361 | the inner loop appends one copy of the text per row |
| Tagging.TrackTagGenerator.BuildColumn | track_tag_generator.py:339-361 | the outer loop builds `AllTags` of the rows |
| Tagging.TrackTagGenerator.GenerateAllTags | track_tag_generator.py:330-371 | ValueError without data; otherwise the column `AllTags` and `tags_generated`, or the first track's error with the state unchanged |
| Tagging.TrackTagGenerator.CountTags | track_tag_generator.py:399-400 | the counting loop computes `Tally` |
| Tagging.TrackTagGenerator.GetTagStatistics | track_tag_generator.py:390-412 | None before generation; KeyError when the table has no tag column, as after reloading a file without one; otherwise the tally over the distinct tag strings, generated or loaded |

## Left out

- The sample track generators (`generate_sample_tracks` and the position generators) are not modelled. They depend on the clock and on floating-point trigonometry, so `TrackGenerator` is constructed with its tracks.
- File I/O is abstracted:
  - files are byte sequences;
  - `open`, the filename and `OSError` are not modelled;
  - `export_to_csv` returns its header and rows instead of writing them, so CSV quoting is not modelled;
  - `print` output is dropped everywhere.
- The byte order of `struct`'s native `'I'` and `'d'` is fixed to little-endian. Native alignment does not arise, because every call packs a single item.
- Doubles are kept as their eight stored bytes in the codec, which only copies them. In the analytics they are exact reals, so NumPy's rounding is not modelled.
- `Analytics.PI` is the decimal 3.141592653589793.
- A standard deviation is compared through its square, and a load factor through `1 + g²`. The comparisons are the same because the thresholds are non-negative.
- `avg_g` is not modelled because it needs a square root. It is only printed.
- `datetime.fromtimestamp(...).isoformat()` in `export_to_csv` is not modelled: the CSV rows carry the stored doubles. Local time zones are outside the model.
- Extractor.TrackExtractor.ExportToCsv: never fails. `datetime.fromtimestamp` raises on a NaN or out-of-range time (track_extractor.py:132, 133, 135), and that error is not modelled.
- Utf8.Encode: Dafny strings hold Unicode scalar values only. The UnicodeEncodeError that `str.encode('utf-8')` raises on a lone surrogate (track_generator.py:161, 166, 171) is therefore not modelled.
- `load_csv` is modelled from the rows and the optional `ai_generated_tags` column it yields. pandas' CSV parsing and its type inference are not part of this model; in particular an empty tag cell, which pandas reads as NaN and on which `split` raises, is taken as the empty string.
- Analytics.Lower: lower-cases ASCII letters only. Python's `str.lower` also folds other scripts.
- Tagging.TagsForTrack: returns only the tag list. The merged `metrics` dict of `generate_tags_for_track` is not assembled, though each calculator's metrics are modelled. For an id with no rows it returns an empty tag list; `generate_tags_for_track` returns a bare `[]`, which cannot happen for ids taken from the table.
- Tagging.TrackTagGenerator.GenerateAllTags: does not return the data frame; the frame stays in the object's state.
- Tagging.SplitJoin: requires that no tag text holds `"; "`. A `track_type` containing `"; "` would split into extra pieces, and that case is not excluded elsewhere in the model.
- Inputs of the wrong Python type are not modelled: a missing dict key, a non-float passed to `struct.pack('d')`, or a non-int track id.
- `save_tagged_csv`, `export_to_json`, `export_summary`, `get_tracks`, the command-line `main` functions, the GUI viewer and the tag verifier script are outside the core.
