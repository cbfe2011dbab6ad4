# OPPO LUT converter: a Dafny model of one file's conversion

`tools/convert_oppo_luts.py` turns the colour look-up tables shipped in OPPO
camera firmware into Adobe `.cube` tables. The tables come either as `.MS-LUT `
containers or as raw byte dumps. This project models what the converter does
with one file's bytes and name, up to the point where it writes the output:

- The **text short-circuit** copies a blob that is already `.cube` text.
- The **container sniffer** (`parse_ms_lut_header`) recognises the magic, reads
  the version and derives the grid size, the bytes per record and the payload
  offset from the file length. It then samples the first rows to decide
  whether records are stored B, G, R.
- The **raw-dump resolver** handles a blob without the magic. It uses a table
  of known lengths or a rounded cube root, always reads from offset 0, and
  takes the byte order from the `.rgb.` / `.rgba.` name hints.
- The **decoder** (`extract_lut_data`) walks fixed-stride records and divides
  each of the first three bytes by 255.
- The **normalizer** rejects a decode with no entries or fewer than 90 % of
  n³ entries. Otherwise it truncates or pads the table to exactly n³ entries,
  padding with the identity ramp in red-fastest grid order.
- The **genre classifier** (`categorize_lut`) returns the first genre of
  `GENRE_PATTERNS`, in declaration order, with a pattern found in the
  lower-cased name.

Modules:

| module | file | content |
|---|---|---|
| `Common` | `common.dfy` | bytes, `Option`, prefix and substring search, ASCII lower-casing, little-endian integers, the cube |
| `Decoder` | `decoder.dfy` | the header record, colour entries, `extract_lut_data` |
| `MsLut` | `ms_lut.dfy` | `parse_ms_lut_header` |
| `RawDump` | `raw_dump.dfy` | the raw-dump resolver and an exact rounded cube root |
| `Normalizer` | `normalizer.dfy` | reject, truncate and pad |
| `Genre` | `genre.dfy` | `GENRE_PATTERNS` and `categorize_lut` |
| `Convert` | `convert.dfy` | the text check and the whole conversion `ConvertOne` |

The two loops of `categorize_lut` only compute a value, so they are the
recursive functions `Genre.FirstGenre` (over genres) and
`Genre.AnyPatternMatches` (over one genre's patterns). Every other loop of the
source is a method with its invariants. The method's `ensures` ties its result
to a specification function, and the properties are proved as lemmas about
that function:

| method | specification function |
|---|---|
| `BruteForceSearch` | `FirstFit` |
| `SampleRows` | `Sampled` |
| `DetectByteOrder` | `ByteOrder` |
| `ParseMsLutHeader` | `MsLutHeader` |
| `ExtractLutData` | `Decoded` |
| `NormalizeEntries` | `Normalized` |
| `ConvertBinToCube` | `ConvertOne` |

The pure parts are functions: the exact-size tables, the size banding, the
byte-order comparison, the text check and the classifier.

Points where the code behaves in a way a reader might not expect, and what
the model does:

- **The two filename rules for byte order.** The sniffer reads the name only
  when four records fit after the offset (the guard at line 130) and yet fewer
  than two rows could be sampled. It then sets BGR exactly when the lower-cased
  name contains `.rgba.` (lines 145-146). When the guard fails, BGR stays
  False (line 129) and the name is never read. The raw-dump rule starts from BGR and
  switches to RGB only for a name with `.rgb.` and without `.rgba.` (lines 307
  and 337-338). Both rules give BGR for `.rgba.`. They differ for a name with
  neither hint: the sniffer's fallback gives RGB and the raw-dump rule gives
  BGR. The model keeps both rules as written. It also proves that the
  sniffer's fallback is never reached for a container
  (`MsLut.ContainerByteOrderIgnoresFilename`).
- **The stored offsets.** The 64-bit offsets read at 0x20 and 0x28 (lines
  67-81) never survive. Every later branch overwrites `data_offset`, so the
  container geometry depends on the length alone (`MsLut.GeometryFromLengthOnly`).
- **The raw resolver never fails.** It always produces a header, even for
  an empty blob. Such a header decodes to no entries and is then rejected.
- **The text test.** It uses `bytes.isascii()`, which accepts every byte below
  0x80, control bytes included.
- **Channels on the cube-root path.** Line 334 sets three channels on the
  cube-root path, even when the four-channel test succeeded. The model keeps
  this as written (`RawDump.FourChannelShapeReadAsThree`).

## Model

| member | source | states |
|---|---|---|
| `Common.Take` | tools/convert_oppo_luts.py:286-288 | `s[:k]` has min(\|s\|, k) elements and agrees with `s` on them |
| `Common.Contains` | tools/convert_oppo_luts.py:289 | `p in s` holds exactly when `p` occurs at some position of `s` |
| `Common.AsciiLower` | tools/convert_oppo_luts.py:40 | lower-casing keeps the length, maps each character on its own, and leaves no upper-case letter |
| `Decoder.Channel` | tools/convert_oppo_luts.py:182-184 | a byte divided by 255 lies in [0, 1] |
| `Decoder.RecordAt` | tools/convert_oppo_luts.py:177-191 | an entry's first and third components come from byte 0 and byte 2, swapped when BGR; the middle one comes from byte 1; all lie in [0, 1] |
| `Decoder.RecordCount` | tools/convert_oppo_luts.py:169-175 | the walk yields at most n³ records, every one of them complete, and stops early only at the first incomplete record |
| `Decoder.RecordCountUnique` | tools/convert_oppo_luts.py:169-175 | a count with those properties is the decoder's count |
| `Decoder.Decoded` | tools/convert_oppo_luts.py:158-193 | the decoder never yields more than n³ entries; every entry comes from a complete record; it stops short of n³ only at an incomplete record; every component is in [0, 1] |
| `Decoder.DecodedEntry` | tools/convert_oppo_luts.py:172-191 | entry i comes from the three bytes at dataOffset + i * channels, with first and third swapped exactly when the header says BGR |
| `Decoder.RecordRoundTrip` | tools/convert_oppo_luts.py:177-191 | scaling a decoded entry back by 255, in the stored order, recovers the record's three bytes |
| `Decoder.ExtractLutData` | tools/convert_oppo_luts.py:158-193 | the record loop with its early break returns exactly `Decoded` |
| `MsLut.FirstChannel` | tools/convert_oppo_luts.py:99-109 | the inner loop finds the first channel count that leaves 0..4095 header bytes, or reports that none does |
| `MsLut.FirstFit` | tools/convert_oppo_luts.py:96-110 | the brute-force search returns the first (size, channels) pair, in sizes-then-channels order, that leaves 0..4095 header bytes; no earlier pair fits; None means no pair fits |
| `MsLut.ExactProfile` | tools/convert_oppo_luts.py:86-94 | the two known lengths get their fixed (size, channels, offset), and the payload ends exactly at the end of the file |
| `MsLut.SearchGeometry` | tools/convert_oppo_luts.py:96-123 | a found pair is exactly `FirstFit`'s pair, with offset + size³ · channels = length; without one the size is banded, channels is 3 and the offset is max(0, length − size³ · 3); grid size is in 16..64, channels is 3 or 4, and a non-empty file gets an offset below its length |
| `MsLut.BandedSize` | tools/convert_oppo_luts.py:112-117 | the fallback size is one of the searched sizes |
| `MsLut.BandedSizeMonotone` | tools/convert_oppo_luts.py:114-117 | a longer file never gets a smaller fallback size |
| `MsLut.ExactProfilesMatchSearch` | tools/convert_oppo_luts.py:86-110 | the fast paths for 14855 and 98480 bytes give what the brute-force search gives |
| `MsLut.MagicGeometry` | tools/convert_oppo_luts.py:86-123 | the geometry with the fast paths is the brute-force search's geometry for every length |
| `MsLut.Sampled` | tools/convert_oppo_luts.py:131-137 | the sampling loop keeps at most one byte per row; when the last row's record fits in the file, every row is kept and the last kept byte comes from that row |
| `MsLut.AllRowsSampled` | tools/convert_oppo_luts.py:130-137 | when four records fit after the offset, every one of the first min(4, n) rows is sampled, at stride `channels` |
| `MsLut.ByteOrder` | tools/convert_oppo_luts.py:129-146 | with 3 or more channels and n ≥ 2, BGR holds exactly when four records fit and byte 2 rises more than byte 0 between the first and the last sampled row |
| `MsLut.AscendingRedIsRgb` | tools/convert_oppo_luts.py:126-142 | a payload whose byte 0 strictly rises and whose byte 2 stays constant is detected as RGB |
| `MsLut.MsLutHeader` | tools/convert_oppo_luts.py:50-155 | no magic means no header; a magic blob shorter than 12 bytes cannot be parsed; otherwise the grid size is 16..64, channels is 3 or 4, and the offset lies inside the blob |
| `MsLut.GeometryFromLengthOnly` | tools/convert_oppo_luts.py:62-123 | a container's grid size, channels and offset are the search result for its length; the stored offset candidates play no part |
| `MsLut.ContainerByteOrderIgnoresFilename` | tools/convert_oppo_luts.py:139-146 | the filename fallback is unreachable for containers: the parsed header is the same under any name |
| `MsLut.FirstFitIs` | tools/convert_oppo_luts.py:96-110 | a fitting pair with no fitting pair before it in the search order is the search result |
| `MsLut.BruteForceSearch` | tools/convert_oppo_luts.py:96-110 | the nested loop with its found flag and breaks finds a pair exactly when `FirstFit` does, returns that pair, and its offset makes the payload end at the end of the file |
| `MsLut.ParseMsLutHeader` | tools/convert_oppo_luts.py:50-155 | the step-by-step header parse, including the overwritten offset candidates, returns `MsLutHeader`, whose geometry is `SearchGeometry` of the length |
| `MsLut.SampleRows` | tools/convert_oppo_luts.py:131-137 | the sampling loop collects exactly `Sampled` for bytes 0 and 2 |
| `MsLut.DetectByteOrder` | tools/convert_oppo_luts.py:129-146 | the guard, the sampling and the comparison return `ByteOrder` |
| `RawDump.RootSearch` | tools/convert_oppo_luts.py:324 | the upward search ends at a k with k − ½ ≤ ∛(m/d) < k + ½ |
| `RawDump.RoundedCubeRoot` | tools/convert_oppo_luts.py:324 | `int((m / d) ** (1/3) + 0.5)` on exact reals: k − ½ ≤ ∛(m/d) < k + ½ |
| `RawDump.RoundedCubeRootUnique` | tools/convert_oppo_luts.py:324 | that rounded cube root is unique |
| `RawDump.RoundedCubeRootOfCube` | tools/convert_oppo_luts.py:324-325 | the rounded cube root of d · k³ / d is k |
| `RawDump.RawExactSize` | tools/convert_oppo_luts.py:309-320 | a known length is exactly channels · size³ with size 16 or 32 |
| `RawDump.RawHeader` | tools/convert_oppo_luts.py:302-345 | offset 0; the table's (size, channels) for the four known lengths; otherwise three channels and the rounded cube root of length / 4 when length is four times a cube, else of length / 3; BGR unless the lower-cased name has `.rgb.` and not `.rgba.` |
| `RawDump.FourChannelShapeReadAsThree` | tools/convert_oppo_luts.py:324-334 | a length 4 · k³ outside the table passes the four-channel test with grid size k but is still read with three channels |
| `RawDump.ThreeCubeNotFourCube` | tools/convert_oppo_luts.py:324-332 | no positive length is both three times and four times a cube |
| `RawDump.ThreeChannelShape` | tools/convert_oppo_luts.py:321-334 | a length 3 · k³ outside the table gets grid size k and three channels |
| `RawDump.FourChannelTestExact` | tools/convert_oppo_luts.py:324-325 | the four-channel test succeeds exactly on lengths of the form 4 · k³ |
| `Normalizer.TooFewMonotone` | tools/convert_oppo_luts.py:355 | more entries never turn an accepted decode into a rejected one |
| `Normalizer.Ratio` | tools/convert_oppo_luts.py:369-371 | a grid coordinate divided by n − 1 lies in [0, 1] |
| `Normalizer.IdentityRamp` | tools/convert_oppo_luts.py:366-372 | a padding entry lies in [0, 1] |
| `Normalizer.GridCoordinatesDetermineIndex` | tools/convert_oppo_luts.py:369-371 | the blue coordinate is below n and i = r + n · g + n² · b, so the ramp visits each grid point once, red fastest |
| `Normalizer.Normalized` | tools/convert_oppo_luts.py:355-372 | rejected exactly when there are no entries or fewer than 90 % of n³; otherwise n³ entries, the decoded prefix unchanged, and every padded index holding the identity ramp with n ≥ 2 |
| `Normalizer.PaddingDivisorPositive` | tools/convert_oppo_luts.py:363-371 | padding only happens with n − 1 > 0, so the ramp never divides by zero |
| `Normalizer.NormalizeFullTable` | tools/convert_oppo_luts.py:359-362 | a non-empty table of exactly n³ entries is returned unchanged |
| `Normalizer.NormalizeIdempotent` | tools/convert_oppo_luts.py:355-372 | normalizing a normalized table changes nothing |
| `Normalizer.NormalizedInUnit` | tools/convert_oppo_luts.py:355-372 | a normalized table of in-range entries stays in [0, 1] |
| `Normalizer.ThresholdBoundary` | tools/convert_oppo_luts.py:355 | m = ⌈0.9 · n³⌉ entries are accepted and m − 1 are rejected |
| `Normalizer.NormalizeEntries` | tools/convert_oppo_luts.py:355-372 | the reject test, the truncation and the padding loop return `Normalized` |
| `Genre.AnchoredImpliesUnanchored` | tools/convert_oppo_luts.py:44 | whatever `^lit` matches, `lit` matches too |
| `Genre.AnyPatternMatches` | tools/convert_oppo_luts.py:43-45 | the pattern loop succeeds exactly when some pattern of the genre matches |
| `Genre.FirstGenre` | tools/convert_oppo_luts.py:42-47 | the genre loop returns the first genre with a matching pattern, or none when no genre matches |
| `Genre.TableLabels` | tools/convert_oppo_luts.py:14-35 | the table's labels, in order, are the twenty genre names of `GENRE_PATTERNS` |
| `Genre.GenreLabelsDistinct` | tools/convert_oppo_luts.py:14-35 | the twenty genre names are distinct and none of them is "Uncategorized" |
| `Genre.LabelsDistinct` | tools/convert_oppo_luts.py:14-35 | the genre labels of the table are distinct and none of them is "Uncategorized" |
| `Genre.FirstLabel` | tools/convert_oppo_luts.py:42-47 | for any table with distinct labels: genre g is returned exactly when g matches and no earlier genre does; "Uncategorized" exactly when none matches |
| `Genre.CategorizeLut` | tools/convert_oppo_luts.py:38-47 | returns genre g exactly when g has a matching pattern and no earlier genre does; returns "Uncategorized" exactly when nothing matches |
| `Genre.FirstDeclaredGenreWins` | tools/convert_oppo_luts.py:14-47 | "gr.portrait_v01" is "Ricoh GR" although the Portrait and Landscape patterns match it too |
| `Common.LeUint` | tools/convert_oppo_luts.py:57 | a little-endian integer of k bytes is below 256^k and its low byte is the first byte |
| `Convert.AsciiDecodeDropsNonAscii` | tools/convert_oppo_luts.py:286-288 | a blob with a byte of 0x80 or more loses at least one byte when decoded |
| `Convert.AsciiExactlyWhenNothingDropped` | tools/convert_oppo_luts.py:286-288 | a blob is ASCII exactly when decoding with errors ignored leaves it unchanged |
| `Convert.ShortBlobIsNotText` | tools/convert_oppo_luts.py:286-289 | a blob shorter than `TITLE` is never taken for text |
| `Convert.AsciiDecodeIgnore` | tools/convert_oppo_luts.py:288 | dropping non-ASCII bytes leaves only ASCII, never lengthens, and keeps ASCII input unchanged |
| `Convert.AsciiDecodeIgnoreConcat` | tools/convert_oppo_luts.py:288 | dropping non-ASCII bytes distributes over concatenation |
| `Convert.Sniff` | tools/convert_oppo_luts.py:285-345 | text is recognised first; a magic blob under 12 bytes cannot be read; otherwise a header with 3 or 4 channels and an offset at most the length (an empty raw blob gets offset 0); a blob without the magic gets the raw-dump header |
| `Convert.ConvertOne` | tools/convert_oppo_luts.py:279-383 | copied, with the bytes unchanged, exactly for text; a converted table has n ≥ 1, exactly n³ entries, and all components in [0, 1] |
| `Convert.FailureCases` | tools/convert_oppo_luts.py:355-357 | a conversion fails exactly when a container is too short to parse or the decode recovers too few entries |
| `Convert.ConvertedTable` | tools/convert_oppo_luts.py:353-372 | a converted table starts with every decoded entry unchanged, and the rest is the identity ramp with n ≥ 2; the truncation never applies |
| `Convert.TagSurvivesDecode` | tools/convert_oppo_luts.py:286-289 | a tag found inside the ASCII first 20 bytes is found at the same position in the first 500 bytes decoded with errors ignored |
| `Convert.TextBeforeMagic` | tools/convert_oppo_luts.py:285-300 | a blob whose first 20 bytes are ASCII and hold `LUT_3D_SIZE` or `TITLE` is copied, whatever follows, before the magic is looked at |
| `Convert.MagicThenTitleIsCopied` | tools/convert_oppo_luts.py:285-300 | a blob with the container magic followed by `TITLE` parses as a container, yet it is copied as text |
| `Convert.Profile17` | tools/convert_oppo_luts.py:87-90 | a 14855-byte container is converted as 17 points, 3 channels, offset 116, with 4913 decoded entries and no padding |
| `Convert.Profile32` | tools/convert_oppo_luts.py:91-94 | a 98480-byte container is converted as 32 points, 3 channels, offset 176, with 32768 decoded entries |
| `Convert.RawDump16` | tools/convert_oppo_luts.py:309-311 | a 16384-byte raw dump without `.rgb.` is a BGR 16-point four-channel table at offset 0 with 4096 entries |
| `Convert.ConvertBinToCube` | tools/convert_oppo_luts.py:279-383 | the conversion steps, run in the source's order, return `ConvertOne` |

## Left out

- File and directory I/O is not modelled: the reads and writes in `convert_bin_to_cube` (lines 282-283, 292-293 and 381), `write_cube_file` (lines 266-276) with its `.6f` formatting, `process_directory`, `organize_by_genre`, `main` and every `print`. The model stops at the table that would be written.
- `extract_float_lut`, `extract_byte_lut` and `extract_byte_lut_auto` (lines 195-263) are not modelled. Nothing in the conversion flow calls them.
- Convert.ConvertOne: does not return the genre. `convert_bin_to_cube` computes it from the file stem with `categorize_lut`, which `Genre.CategorizeLut` models on its own.
- RawDump.RoundedCubeRoot: takes the cube root on exact reals. Python's floating `** (1/3)` could round differently when the true root lies within rounding error of a half-integer.
- Normalizer.TooFew: uses the exact test 10 · count < 9 · n³. The floating product `n**3 * 0.9` could differ from it only at exact boundaries.
- Colour components are exact reals (`byte / 255`, `k / (n − 1)`), not IEEE doubles.
- Genre.PatternMatches: models each pattern as a literal, either anchored at the start or a plain substring, rather than running the `re` engine. On ASCII names `IGNORECASE` changes nothing after lower-casing. Python's case-insensitive matching also treats ſ as s and ı as i, which the model does not.
- Common.AsciiLower: lower-cases ASCII letters only, not Unicode `str.lower()`.
- Exceptions other than the too-short version field are not modelled. That field (`struct.unpack` at line 57) maps to `Failed`. No other exception can arise from the modelled steps on a byte string.
- The container version is read (`Parsed.version`), but nothing branches on it, as in the source.
