# MH Stories 2 tool suite: the archive extractor and the model, material and tint parsers

This project models the file-format core of a Blender add-on for
Monster Hunter Stories 2 assets, and proves properties of that model. The
core has five parts.

- **The byte cursor (`Reader`).** Each parser has its own copy of it. It is
  an offset into an immutable byte string, and every typed read unpacks the
  bytes at the offset and then advances. Here it is one class, `Cursor.Reader`.
  Its reads fail with `Underrun` when `struct.unpack` would raise. `readBytes`
  is a Python slice and never fails. `allign` divides by its argument.
- **The archive extractor.** `jamcrc` hashes resource-class names. The
  `fileExts` registry maps each hash to an extension. `bulk_extract_arc` reads
  every `.arc` archive and its 144-byte entry table. It writes each registered
  entry that is not already in the extraction directory. It copies the loose
  files of a separate installation. It writes the sorted manifest of every
  relative path.
  - Modules `Crc`, `Registry`, `Arc`, `Manifest` and `Extract`.
- **`ModParser.read`.** It reads the header (magic 4476749, version 214), the
  material names in 128-byte slots, the skeleton and the 56-byte mesh
  descriptors. The skeleton is a bone record, a local matrix and a global
  matrix per bone, then a 4096-byte remap table. For each mesh it reads the
  vertex run and dispatches on the encoding tag to a column layout. It splits
  the face strip at the restart marker 65535 and turns the strips into
  triangles. It drops degenerate triangles, keeps only the vertices the faces
  use, and renumbers the faces densely.
  - Modules `ModFile` (the format as functions), `Layouts`, `Strips` and
    `ModReader` (the parser class).
- **`MrlParser.read`.** It reads the header (magic 5001805) and walks the
  texture table. A discriminator decides each slot's size and whether it
  yields a path, an empty entry or nothing. It reads the 72-byte material
  records. For each material it reads the 24-byte resource bindings. A
  binding of kind 3 names a texture `texture_paths[id - 1]`, with Python's
  negative index for id 0. A binding of kind 0 names a property. The
  resource dictionary is keyed by `hex(hash)`. The materials go into a
  dictionary keyed by name hash, where a later record replaces an earlier
  one.
  - Modules `MrlFile` (the format) and `MrlReader` (the parser class).
- **`ClcParser.read`.** Magic 4410435, a skipped word and three skipped bytes,
  then three colour bytes divided by 255.
  - Module `Clc`.

Each parser is a class over a `Reader`, as in the source. Each method is
proved equal to a function of the file's bytes, for example
`ensures r == ParseMrl(bs.data, names)`. The properties are then proved as
lemmas about those functions:
- which inputs are accepted;
- what each record holds;
- the sums of the skin weights;
- that the face renumbering inverts;
- that the library keeps the last record with a given hash;
- that a successful extraction never touches existing files, keeps the
  manifest backed by files and is idempotent when it reads the same archives
  again;
- that a failed extraction leaves the files it wrote before the failure in
  place, still never touches existing files, and writes no manifest.

Errors follow the source's exceptions, and the first one in source order wins:
- `struct.error` becomes `Underrun`;
- the magic checks become `BadMagic` and `BadModHeader`;
- `IndexError` becomes `IndexOutOfRange`;
- numpy shape errors become `BadShape`;
- `ZeroDivisionError` becomes `ZeroDivision`.

Several things become parameters, because they are calls into code outside
this model:
- decryption and decompression;
- the classification of an archive's magic word, so that a run can be
  stated both for the extractor as written and for the corrected test
  (see "## Findings");
- the numeric decoding of half and single floats (`Decoder`);
- the contents of `resources_dict.json` (`names`).

The file system is a map from relative path to contents.

## Model

| member | source | states |
|---|---|---|
| Cursor.Reader.constructor | mod/mod_parser.py:13-15 | a new cursor stands at offset 0 over the given bytes |
| Cursor.Reader.Seek | mod/mod_parser.py:22-24 | an absolute seek sets the offset to any integer, in range or not |
| Cursor.Reader.SeekRelative | mod/mod_parser.py:25-26 | a seek with a start argument adds to the offset |
| Cursor.Reader.Read | mod/mod_parser.py:17-20 | the result is the `size` bytes at the offset, or `Underrun` when fewer remain (a negative offset slices as Python does); the offset advances by `size` only on success |
| Cursor.Reader.ReadUnsigned | mod/mod_parser.py:17-20 | the little-endian unsigned value of the bytes at the offset, with the same failure and advance |
| Cursor.Reader.ReadSigned | mod/mod_parser.py:17-20 | the two's-complement value of the bytes at the offset, with the same failure and advance |
| Cursor.Reader.ReadUByte | mod/mod_parser.py:55-56 | one unsigned byte; advances by 1 on success |
| Cursor.Reader.ReadByte | mod/mod_parser.py:49-50 | one signed byte; advances by 1 on success |
| Cursor.Reader.ReadUShort | mod/mod_parser.py:46-47 | 16-bit unsigned; advances by 2 on success |
| Cursor.Reader.ReadShort | mod/mod_parser.py:43-44 | 16-bit signed; advances by 2 on success |
| Cursor.Reader.ReadUInt | mod/mod_parser.py:28-29 | 32-bit unsigned; advances by 4 on success |
| Cursor.Reader.ReadInt | mod/mod_parser.py:31-32 | 32-bit signed; advances by 4 on success |
| Cursor.Reader.ReadUInt64 | mod/mod_parser.py:34-35 | 64-bit unsigned; advances by 8 on success |
| Cursor.Reader.ReadHalf | mod/mod_parser.py:37-38 | the raw bits of a half float; advances by 2 on success |
| Cursor.Reader.ReadFloat | mod/mod_parser.py:40-41 | the raw bits of a single float; advances by 4 on success |
| Cursor.Reader.ReadBytes | mod/mod_parser.py:52-53 | the Python slice of `size` bytes at the offset; it never fails and never moves the cursor |
| Cursor.Reader.ReadString | mod/mod_parser.py:58-66 | text and new offset are those of the zero-terminated scan from the old offset; the cursor ends just past the zero byte, or where the scan ran off the end |
| Cursor.Reader.ReadStringUTF | mod/mod_parser.py:81-89 | the same for 16-bit units up to the first zero unit |
| Cursor.Reader.ReadStringUTFAt | mod/mod_parser.py:68-79 | the wide string at `at`; the cursor comes back to where it was, unless the scan failed, which leaves it where the scan stopped |
| Cursor.Reader.Allign | mod/mod_parser.py:91-92 | a zero size raises and leaves the offset; otherwise the offset becomes `int(offset / size) * size + size`, with the exact quotient truncated toward zero, not the double the source divides in |
| Cursor.AlignedOffsetNext | mod/mod_parser.py:91-92 | for a non-negative offset and a positive size, the new offset is the next multiple of `size` strictly above the offset, with exact division |
| Cursor.CStringScanSpec | mod/mod_parser.py:58-66 | a scan from `off` succeeds exactly when a zero byte lies at or after `off`; the text is the bytes before the first such zero, and the cursor ends one past it |
| Cursor.CStringAtSpec | mod/mod_parser.py:58-66 | a string is read exactly when a zero byte follows `off`, and it is the text up to the first zero |
| Cursor.PrependNothing | mod/mod_parser.py:58-66 | prefixing no characters leaves a scan as it is (used by the string loops) |
| Cursor.PrependTwice | mod/mod_parser.py:58-66 | prefixing twice is prefixing the concatenation (used by the string loops) |
| Cursor.ReadRecordField | mod/mod_parser.py:17-20 | an unsigned field read at its place inside a record is the field of the record's bytes, or `Underrun` only when the record does not fit |
| Cursor.ReadRecordSingle | mod/mod_parser.py:40-41 | the same for a single float inside a record |
| Binary.PySlice | mod/mod_parser.py:18 | `s[lo:hi]`: never longer than `s` |
| Binary.PySliceFrom | mod/mod_parser.py:18 | from a non-negative start, a slice that fits is the plain sub-sequence and one that does not is short |
| Binary.SliceBound | mod/mod_parser.py:18 | a slice bound is clamped into `[0, n]` and an in-range bound is kept |
| Binary.PyIndex | mrl/mrl_parser.py:225 | `s[i]`: succeeds exactly for `-len(s) <= i < len(s)`; negative indices count from the end; otherwise `IndexOutOfRange` |
| Binary.Bytes | mod/mod_parser.py:18 | what `struct.unpack` accepts: exactly `w` bytes, or `Underrun` |
| Binary.BytesBelowEnd | mod/mod_parser.py:18 | a read of at least one byte succeeds only strictly before the end of the buffer |
| Binary.BytesFrom | mod/mod_parser.py:18 | from a non-negative offset, a read succeeds exactly when it fits, and yields those bytes |
| Binary.ByteAt | mod/mod_parser.py:55-56 | a one-byte read yields the byte itself, and fails past the end |
| Binary.LastSplit | mod/mod_parser.py:147-151 | a non-empty sequence is its front and its last element (used for every append loop) |
| Binary.Pow256 | mod/mod_parser.py:18 | the range of an unsigned field is positive |
| Binary.LeUInt | mod/mod_parser.py:18 | an unsigned little-endian value of `n` bytes is below `256^n` |
| Binary.Signed | mod/mod_parser.py:31-32 | the two's-complement value lies in `[-2^(8n-1), 2^(8n-1))` and differs from the unsigned one by 0 or `256^n` |
| Binary.UIntAt | mod/mod_parser.py:28-29 | an unsigned read succeeds exactly when the bytes are there, and is below `256^w` |
| Binary.SIntAt | mod/mod_parser.py:31-32 | a signed read succeeds exactly when the bytes are there |
| Binary.HalfAt | mod/mod_parser.py:37-38 | a half read succeeds exactly when two bytes are there |
| Binary.SingleAt | mod/mod_parser.py:40-41 | a float read succeeds exactly when four bytes are there |
| Binary.FieldOfRecord | mod/mod_parser.py:114-124 | reading a field at its offset inside a record that fits gives the field of the record; the last field of a record that does not fit fails |
| Binary.Collect | mod/mod_parser.py:158-171 | a successful loop of `n` reads yields `n` values |
| Binary.CollectElements | mod/mod_parser.py:158-171 | element `i` of a successful loop is the value of read `i` |
| Binary.CollectSticky | mod/mod_parser.py:158-171 | once a prefix of the loop fails, the whole loop fails the same way |
| Binary.CollectFailsAt | mod/mod_parser.py:158-171 | the first failing read decides the loop's error |
| Binary.CollectOkIff | mod/mod_parser.py:158-171 | the loop succeeds exactly when every read does |
| Binary.CollectErrorIs | mod/mod_parser.py:158-171 | when every failing read fails with one error, a failed loop fails with it |
| Binary.CollectOfAll | mod/mod_parser.py:158-171 | a loop whose every read is known yields exactly those values |
| Binary.FoldIdxSticky | mod/mod_parser.py:267-582 | a stateful loop that failed at step `i` fails the same way at every later length |
| Crc.Utf8Char | arc/arc_parser.py:18 | `str.encode()` of one character: 1 to 4 bytes, one byte exactly for ASCII, and that byte is the code |
| Crc.Utf8 | arc/arc_parser.py:18 | an encoding is at least as long as the text |
| Crc.Utf8Ascii | arc/arc_parser.py:18 | an ASCII name encodes to one byte per character, the character's code |
| Crc.Utf8Append | arc/arc_parser.py:18 | encoding distributes over concatenation |
| Crc.UpdateAppend | arc/arc_parser.py:18 | feeding two byte strings into the CRC register one after the other is feeding their concatenation |
| Crc.JamCrc | arc/arc_parser.py:17-18 | `jamcrc(name)` never has its top bit set |
| Crc.UpdateByteBy | arc/arc_parser.py:18 | one byte through the CRC register is the eight reflected shifts after the xor, given their intermediate values |
| Crc.Crc32CheckValue | arc/arc_parser.py:17-18 | the CRC-32 of "a" is the known value 0xE8B7BE43, which fixes the polynomial, the preset, the bit order and the final complement; its `jamcrc` is 0x174841BC |
| Crc.MaterialNameHashIsRegister | mod/mod_parser.py:580 | the mesh's material-name hash `0xFFFFFFFF - crc32(name)` is the raw CRC register before its final complement |
| Crc.JamCrcIsMaterialHashLowBits | arc/arc_parser.py:17-18 | `jamcrc(name)` is the low 31 bits of the material-name hash of the same name |
| Crc.ComplementLowBits | arc/arc_parser.py:18 | xor with all ones and subtraction from all ones agree on the low 31 bits |
| Crc.Complement | mod/mod_parser.py:580 | subtracting from all ones undoes the final complement, and complementing twice is the identity |
| Registry.RegisterKeys | arc/arc_parser.py:20-543 | a hash is registered exactly when some class name in the table hashes to it |
| Registry.RegisterLastWins | arc/arc_parser.py:20-543 | a hash maps to the extension of the last table entry whose name has that hash |
| Registry.RegisterValues | arc/arc_parser.py:20-543 | every registered extension comes from some entry of the table |
| Registry.RegisterByKeys | arc/arc_parser.py:20-543 | the same key property for any key function (the induction behind `RegisterKeys`) |
| Registry.RegisterByLastWins | arc/arc_parser.py:20-543 | the same last-wins property for any key function |
| Registry.RegisterByValues | arc/arc_parser.py:20-543 | the same value property for any key function |
| Arc.ClassifyAsWritten | arc/arc_parser.py:734-751 | the magic test as written never classifies an archive as plain |
| Arc.Classify | arc/arc_parser.py:734-751 | the corrected test: encrypted exactly for "ARCC", plain exactly for "ARC\0" |
| Arc.ClassifyAsWrittenSkipsPlain | arc/arc_parser.py:746-748 | the test as written and the corrected one disagree exactly on the plain magic, which the written one reports unrecognised |
| Arc.ParseAsWrittenSkipsPlain | arc/arc_parser.py:730-751 | with the test as written, an archive with the plain magic is skipped whatever it holds; with the corrected test its entries are listed |
| Arc.ParseClassificationsAgree | arc/arc_parser.py:730-768 | an archive without the plain magic is read alike under both tests |
| Arc.ExtractArchiveAgrees | arc/arc_parser.py:727-785 | the same for the extraction of one such archive |
| Arc.ExtractFilesInflateOnly | arc/arc_parser.py:770-785 | writing an archive's entries depends on the run's parameters only through the decompressor |
| Arc.ExtractClassificationsAgree | arc/arc_parser.py:727-789 | the archive loop is the same under both tests when no archive has the plain magic |
| Arc.RunClassificationsAgree | arc/arc_parser.py:682-820 | so is the whole run |
| Arc.HeaderNeedsEightBytes | arc/arc_parser.py:730-733 | the archive header (magic, a word, the entry count) reads exactly when the file has 8 bytes; otherwise `Underrun` |
| Arc.Slashes | arc/arc_parser.py:758 | `replace("\\", "/")` keeps the length and changes exactly the backslashes |
| Arc.SlashesIdempotent | arc/arc_parser.py:771 | replacing backslashes twice is replacing them once |
| Arc.SlashesAppend | arc/arc_parser.py:771 | replacing backslashes distributes over concatenation of path and extension |
| Arc.KeepSpec | arc/arc_parser.py:761-768 | the listing keeps exactly the entries whose type hash is registered, each with its registered extension |
| Arc.KeepSnoc | arc/arc_parser.py:766-768 | one more entry is appended to the listing exactly when its hash is registered |
| Arc.RegisteredSpec | arc/arc_parser.py:755-768 | reading the entries is reading all of them, failing at the first failure, then keeping the registered ones in order |
| Arc.RegisteredStep | arc/arc_parser.py:755-768 | one step of that induction: entry `n-1` keeps the listing equal to "read all, then keep" |
| Arc.RegisteredSticky | arc/arc_parser.py:755-768 | once an entry fails to read, the listing fails the same way |
| Arc.KnownEntriesSticky | arc/arc_parser.py:755-768 | the same for the entry table of a body |
| Arc.KnownEntriesSpec | arc/arc_parser.py:755-768 | the listing of a body is the registered part of all its entries, or the first read failure, even for unregistered entries |
| Arc.OffsetCountsFromFileStart | arc/arc_parser.py:765 | subtracting the 8 header bytes from a stored offset addresses, in the body, the same compressed bytes the file holds at that offset |
| Arc.LastPart | arc/arc_parser.py:799 | `s.split(".")[-1]` is a suffix of `s` without a dot, preceded by a dot when shorter than `s` |
| Arc.Find | arc/arc_parser.py:804 | `s.find(p)` is the first index where `p` occurs, or -1 when it occurs nowhere |
| Arc.FindFrom | arc/arc_parser.py:804 | the same search started at `k` |
| Arc.Qualifying | arc/arc_parser.py:798-800 | the loose files kept are exactly those whose last extension is registered and is not "arc" |
| Arc.ExtractFilesSticky | arc/arc_parser.py:770-785 | once an entry's extraction fails, the archive's extraction fails the same way |
| Arc.ExtractFilesEffect | arc/arc_parser.py:770-785 | extracting an archive's entries lists each of them, leaves each output file present, never changes a file that was already there, and keeps the manifest backed by files |
| Arc.ExtractFilesWhenPresent | arc/arc_parser.py:773-774 | when every output file is already present, extraction only adds manifest lines and leaves the directory alone |
| Arc.PresentStaysPresent | arc/arc_parser.py:773-774 | files that were present stay present when existing files are preserved |
| Arc.ExtractArchiveEffect | arc/arc_parser.py:727-785 | the same four facts for one whole archive, including skipped ones |
| Arc.ArchivePresentStays | arc/arc_parser.py:773-774 | an archive whose outputs are all present stays so while existing files are preserved |
| Arc.ArchivesPresentSnoc | arc/arc_parser.py:727-785 | presence of every archive's outputs extends by one archive |
| Arc.ExtractArchivesSticky | arc/arc_parser.py:727-789 | once an archive fails, the run of archives fails the same way |
| Arc.ExtractArchivesEffect | arc/arc_parser.py:727-789 | the four facts for the whole sequence of archives |
| Arc.ExtractArchiveWhenPresent | arc/arc_parser.py:770-774 | an archive whose outputs are all present only adds its manifest lines |
| Arc.ExtractArchivesWhenPresent | arc/arc_parser.py:727-789 | the same for every archive in turn |
| Arc.CopyLooseEffect | arc/arc_parser.py:803-813 | copying one loose file lists its path relative to the native root, leaves it present, preserves existing files and keeps the manifest backed |
| Arc.CopyAllEffect | arc/arc_parser.py:803-816 | the same for all qualifying loose files |
| Arc.CopyAllWhenPresent | arc/arc_parser.py:806-807 | loose files already present are only listed, never copied again |
| Arc.RunKeepsAndBacks | arc/arc_parser.py:682-820 | a successful run never changes a file that existed before it (other than `file_list.json`, which the model leaves out with the JSON files), and every manifest line names a file of the directory |
| Arc.RunIdempotent | arc/arc_parser.py:682-820 | running again on the directory a run produced gives the same manifest and the same directory, when the installation is separate or the run wrote no new `.arc` file for the second glob to find |
| Arc.ExtractFilesReachSticky | arc/arc_parser.py:770-785 | once an entry fails, the later entries of the archive write nothing more |
| Arc.ExtractArchivesReachSticky | arc/arc_parser.py:727-789 | once an archive fails, the later archives write nothing more |
| Arc.ExtractFilesReachAgrees | arc/arc_parser.py:770-785 | the outcome of an archive's write loop fails exactly when the extraction does, with its error, and otherwise holds its final state |
| Arc.ExtractArchiveReachAgrees | arc/arc_parser.py:728-785 | the same for one archive, including a header error |
| Arc.ExtractArchivesReachAgrees | arc/arc_parser.py:727-789 | the same for the archive loop |
| Arc.RunReachAgrees | arc/arc_parser.py:682-820 | the same for the whole run |
| Arc.ExtractFilesReachKeeps | arc/arc_parser.py:770-785 | whether or not an entry fails to inflate, existing files keep their contents and every file written is the output of one of the entries |
| Arc.ExtractArchivesReachKeeps | arc/arc_parser.py:727-789 | whether or not an archive fails, existing files keep their contents |
| Arc.RunReachKeeps | arc/arc_parser.py:682-820 | a run that stops on a `zlib` or `struct` error still never changes a file that existed before it, while the files it wrote stay |
| Manifest.BelowIrreflexive | arc/arc_parser.py:818 | Python's string `<` is irreflexive |
| Manifest.BelowTransitive | arc/arc_parser.py:818 | it is transitive |
| Manifest.BelowTotal | arc/arc_parser.py:818 | two different strings are ordered one way or the other |
| Manifest.BelowAsymmetric | arc/arc_parser.py:818 | it is asymmetric |
| Manifest.SortedListingUnique | arc/arc_parser.py:818 | two strictly sorted lists with the same elements are equal, so the sorted manifest is determined by the set |
| Manifest.NoElements | arc/arc_parser.py:818 | a list has no elements exactly when it is empty |
| Manifest.Least | arc/arc_parser.py:818 | the least string of a non-empty set: a member below every other member |
| Manifest.SortedList | arc/arc_parser.py:818 | `sorted(list(s))` is strictly sorted, holds exactly the set's elements and has its size |
| Extract.ReadEntry | arc/arc_parser.py:756-765 | one table entry read at its slot equals the entry function at that index; the cursor ends at the next slot |
| Extract.ReadArchive | arc/arc_parser.py:730-768 | header, classification and entry loop equal `ParseArchive` of the file's bytes, for the classification given (as written or corrected) |
| Extract.ExtractListing | arc/arc_parser.py:770-785 | the write loop of one archive equals the extraction function over its listing, and the directory it leaves equals the one the outcome function reaches, including the files written before an entry fails to inflate |
| Extract.SelectLoose | arc/arc_parser.py:797-800 | the selection loop keeps exactly the qualifying loose files in glob order |
| Extract.CopyLooseFiles | arc/arc_parser.py:803-816 | the copy loop equals the copy function over the selected files |
| Extract.ExtractAll | arc/arc_parser.py:727-789 | the archive loop equals the extraction of every archive in turn from an empty manifest, under the classification the environment carries; the directory it returns is the one the outcome function reaches, so a failure keeps every file written before it |
| Extract.ExtractWith | arc/arc_parser.py:727-820 | the run fails exactly when the whole-run function fails, with its error; on success the manifest is strictly sorted with exactly the run's lines, and the directory is the run's; on failure no manifest is produced and the directory returned is the one the failed run leaves, with the earlier writes; either way the files that existed keep their contents; this holds for the classification as written, which skips every plain archive, and for the corrected one |
| Extract.BulkExtract | arc/arc_parser.py:682-823 | the same with the registry `fileExts`, for either classification, including the directory a failed run leaves |
| Layouts.Width | mod/mod_parser.py:293-512 | each numpy view has elements of 1, 2 or 4 bytes |
| Layouts.Rows | mod/mod_parser.py:294-296 | `reshape([-1, c])`: every row has `c` values |
| Layouts.Leftover | mod/mod_parser.py:294-296 | what remains after the whole rows is shorter than a row |
| Layouts.FlattenRows | mod/mod_parser.py:294-296 | the rows laid end to end, followed by the leftover, give the values back |
| Layouts.StaticLayout | mod/mod_parser.py:293-299 | the four encodings without a skin have a well-formed layout with no bone columns |
| Layouts.RigidLayout | mod/mod_parser.py:314-325 | the four one-bone encodings have a well-formed layout with a single bone column |
| Layouts.BlendLayout | mod/mod_parser.py:326-339 | the six blended encodings have a well-formed layout with bone columns and weight parts |
| Layouts.WideLayout | mod/mod_parser.py:367-395 | the eight-bone encoding and the two fixed-row encodings have a well-formed blended layout |
| Layouts.LayoutOf | mod/mod_parser.py:292-518 | every decoded encoding has a well-formed layout |
| Layouts.DispatchSpec | mod/mod_parser.py:292-518 | exactly the seventeen listed tags decode, exactly the four listed ones are skipped silently, every other one is unsupported |
| Layouts.InfluencesBalanced | mod/mod_parser.py:292-518 | in every skinned encoding there are as many weights as bone columns: one for a single bone, the parts plus the closing weight otherwise; every layout carries 1, 2, 4 or 8 bones per vertex |
| Layouts.BlendBalanced | mod/mod_parser.py:326-339 | the same for the blended encodings |
| Layouts.WideBalanced | mod/mod_parser.py:367-395 | the same for the wide encodings |
| Layouts.PartsWidthSnoc | mod/mod_parser.py:313 | the width of the weight parts grows by each part's width |
| Layouts.Remapped | mod/mod_parser.py:309 | `remap_np[idx]` keeps the shape of the index array |
| Layouts.PartArray | mod/mod_parser.py:311-313 | a weight part has one row per row of its column, of the same width |
| Layouts.SkinArrays | mod/mod_parser.py:309-313 | a decoded skin is present exactly when the layout has one |
| Layouts.SumSnoc | mod/mod_parser.py:313 | the sum of weights grows by each appended weight |
| Layouts.WeightsSumToOne | mod/mod_parser.py:313 | every blended weight row sums to one, and every single-bone weight is one |
| Layouts.ColumnWidth | mod/mod_parser.py:297 | a column selection has one row per vertex row |
| Layouts.SideWidth | mod/mod_parser.py:313 | `np.hstack` of the parts has the parts' total width |
| Layouts.NamesWidth | mod/mod_parser.py:309 | every row of a bone column that fits its view has the column's nominal width |
| Layouts.BlendWidth | mod/mod_parser.py:313 | every blended weight row holds each part's columns and the closing weight |
| Layouts.SkinWidths | mod/mod_parser.py:309-313 | for a layout whose skin fits, every bone row and every weight row has its nominal width |
| Layouts.SliceWidth | mod/mod_parser.py:299 | `view[:, lo:hi]` has the slice's columns clamped to the row, its nominal width when it fits, and none when the slice starts past the row |
| Layouts.UvWidths | mod/mod_parser.py:292-518 | every row of a prepared UV array has the column count the arrays carry for it |
| Layouts.UvNarrowBlocks | mod/mod_parser.py:438-447 | with encoding 0xcbf6c019 the UV slice `[:, 8:10]` is empty for a 16-byte block, one column for an 18-byte block and two for a 20-byte block |
| Layouts.BalancedRows | mod/mod_parser.py:292-518 | for every decoded encoding whose skin fits, each vertex has as many weights as bones |
| Strips.Words | mod/mod_parser.py:524 | the uint16 view exists exactly for an even byte count; word `i` is bytes `2i` and `2i+1` little-endian |
| Strips.Split | mod/mod_parser.py:525 | splitting at the markers yields at least one piece |
| Strips.SplitHasNoMarker | mod/mod_parser.py:525-526 | once the markers are removed, no strip carries one |
| Strips.JoinSplit | mod/mod_parser.py:525 | joining the strips with one marker between them gives the stream back |
| Strips.SplitPlain | mod/mod_parser.py:525 | a stream without markers is one strip |
| Strips.SplitAfterMarker | mod/mod_parser.py:525 | a marker after a plain run ends exactly that strip |
| Strips.SplitJoin | mod/mod_parser.py:525 | strips free of markers are recovered by splitting their join |
| Strips.StripTris | mod/mod_parser.py:526-531 | a strip of `n` indices has a window view exactly when `n >= 3`, and gives `n - 2` triangles |
| Strips.StripCorners | mod/mod_parser.py:526-531 | triangle `k` uses exactly the three indices of window `k` |
| Strips.StripWinding | mod/mod_parser.py:530 | neighbouring triangles share their common edge in opposite directions, so the strip keeps one winding |
| Strips.StackStrips | mod/mod_parser.py:532 | `np.vstack` succeeds exactly when every strip has a window |
| Strips.KeepProper | mod/mod_parser.py:533-536 | the kept triangles are exactly those with three different corners |
| Strips.FacesSpec | mod/mod_parser.py:521-536 | the faces decode exactly when the byte count is even and every strip between markers has at least three indices, failing otherwise with `BadShape`; every kept face has three different corners and none is the marker |
| Strips.StackNoMarker | mod/mod_parser.py:525-532 | no stacked triangle has the marker as a corner |
| Strips.EmptyOrLeadingMarkerFails | mod/mod_parser.py:525-532 | an empty face range, or one that opens with a marker, cannot be decoded |
| Strips.Corners | mod/mod_parser.py:538 | `faces.flatten()` lists the corners of triangle `i` at `3i`, `3i+1`, `3i+2` |
| Strips.HeadBelowRest | mod/mod_parser.py:539 | in an increasing list the head is below every later value, and the tail stays increasing |
| Strips.IncreasingCons | mod/mod_parser.py:539 | a value below every element of an increasing list may lead it and keep it increasing |
| Strips.Insert | mod/mod_parser.py:539 | inserting into an increasing list keeps it increasing, and adds exactly the value |
| Strips.Unique | mod/mod_parser.py:539 | `np.unique` is increasing and holds exactly the values of its input |
| Strips.CountBelow | mod/mod_parser.py:566 | `searchsorted` returns a position within the list |
| Strips.CountBelowFinds | mod/mod_parser.py:566 | in an increasing list, `searchsorted` finds the position of a value the list holds |
| Strips.CountNoneBelow | mod/mod_parser.py:566 | nothing below the least value gives position 0 |
| Strips.Reindex | mod/mod_parser.py:565-567 | renumbering keeps the number of faces |
| Strips.ReindexInverts | mod/mod_parser.py:538-567 | every renumbered corner is a valid index into the used vertices, and the used vertex there is the original corner |
| Strips.UsedAreCorners | mod/mod_parser.py:538-539 | every used vertex is a corner of some face |
| Strips.Gather | mod/mod_parser.py:541 | `a[idx]` succeeds exactly when every index is in range, and picks those elements; otherwise `IndexOutOfRange` |
| Strips.GatherThroughFaces | mod/mod_parser.py:541-567 | looking up a renumbered corner in the gathered rows gives the row of the original corner |
| ModFile.BoundsPrefix | mod/mod_parser.py:131-142 | the bound floats taken so far have the requested count |
| ModFile.ParseHeader | mod/mod_parser.py:108-142 | a parsed header has twelve bound floats |
| ModFile.HeaderOf | mod/mod_parser.py:114-142 | the header fields from the record hold twelve bound floats |
| ModFile.HeaderAccepted | mod/mod_parser.py:108-142 | the header is accepted exactly when magic is 4476749, version is 214 and the file holds the whole header; a wrong magic or version is reported with both values; every other failure is `Underrun` |
| ModFile.MaterialsFit | mod/mod_parser.py:147-151 | the material names are read exactly when every 128-byte slot has a zero byte somewhere after its start |
| ModFile.MaterialNames | mod/mod_parser.py:147-151 | one name per material, and name `i` is the text at the start of slot `i` |
| ModFile.BoneInfoAt | mod/mod_parser.py:158-171 | a bone record reads exactly when its 24 bytes fit |
| ModFile.MatrixAt | mod/mod_parser.py:173-192 | a matrix reads exactly when its 64 bytes fit |
| ModFile.LastIndex | mod/mod_parser.py:194-197 | the last position holding a value, or none when no position does |
| ModFile.RemapTable | mod/mod_parser.py:193-197 | the remap table has 4096 entries |
| ModFile.RemapTableSpec | mod/mod_parser.py:193-197 | the table sends every value to the last byte position naming it, and leaves unnamed values where they are |
| ModFile.RemapCollides | mod/mod_parser.py:193-197 | the table is not injective: two values can be sent to the same place |
| ModFile.ParseSkeleton | mod/mod_parser.py:153-209 | a parsed skeleton has one bone per bone count |
| ModFile.RunFits | mod/mod_parser.py:158-192 | a run of fixed-size records is read exactly when its last record ends in the file; otherwise `Underrun` |
| ModFile.SkeletonFits | mod/mod_parser.py:153-209 | the skeleton is read exactly when there are no bones or the whole skeleton with its table fits; otherwise `Underrun` |
| ModFile.BuildSkeletonSpec | mod/mod_parser.py:158-207 | bone `i` gets record, local matrix, global matrix and remap `i`; the scale is the diagonal of the first global matrix |
| ModFile.SkeletonParts | mod/mod_parser.py:153-209 | a skeleton with bones is built from its three record runs and the table that follows them |
| ModFile.SkeletonSpec | mod/mod_parser.py:153-209 | the remap array exists exactly when there are bones; the scale is one along each axis exactly when there are none, and is otherwise the first global diagonal; bone `i` has id `i`; the remap array has 4096 entries and agrees with each bone's remap |
| ModFile.BoneInfosRead | mod/mod_parser.py:158-171 | bone record `i` is the record at `bone_offset + 24 i` |
| ModFile.MatricesRead | mod/mod_parser.py:173-192 | matrix `i` of a run is the matrix at `64 i` bytes from the run's start |
| ModFile.LodOf | mod/mod_parser.py:223-240 | the level is at most 4; it is 4 exactly for 0xff and 3 exactly for 0x7f; unlisted bytes give level 0 |
| ModFile.DescriptorAt | mod/mod_parser.py:217-262 | a descriptor reads exactly when its 56 bytes fit |
| ModFile.HasLodSnoc | mod/mod_parser.py:223-225 | the "has levels of detail" flag is set by a descriptor whose raw level is not 0xff |
| ModFile.GatherOpt | mod/mod_parser.py:541-563 | an optional array is gathered exactly when it is absent or every index is in range; presence is kept |
| ModFile.Select | mod/mod_parser.py:541-563 | selecting the used rows fails only with `IndexOutOfRange`, which includes the UV flip of column 1 on a UV array narrower than two columns; position `i` is the row of used vertex `i`; every present array has one row per used vertex; bone names and weights are present exactly when the encoding has a skin |
| ModFile.PresentSticky | mod/mod_parser.py:267-582 | once a mesh fails, the mesh loop fails the same way |
| ModFile.PresentStep | mod/mod_parser.py:267-582 | one more mesh appends its result when it is decoded and nothing when it is skipped |
| ModFile.PresentFails | mod/mod_parser.py:267-582 | the first failing mesh decides the loop's error |
| ModFile.PresentSpec | mod/mod_parser.py:267-582 | when the loop succeeds, every step succeeded; each kept mesh is the one its step made; the kept meshes are in increasing step order; every step that made a mesh is kept |
| ModFile.AssembleSpec | mod/mod_parser.py:521-581 | an assembled mesh has one row per used vertex in each array; its material is `materials[mat_idx]` (in range); every present UV array is at least two columns wide; id, level, group and scale are those given; it has one face per kept strip triangle, and each face's corners name the positions of that triangle's original corners |
| ModFile.AssembleNarrowUv | mod/mod_parser.py:545-553 | once the face strips decode, a present UV array narrower than two columns makes the mesh fail with `IndexOutOfRange` |
| ModFile.MeshOfSpec | mod/mod_parser.py:267-582 | a descriptor yields a mesh exactly when its encoding decodes; the mesh is coherent, carries the descriptor's id and group, the skeleton's scale, its level (0 when no mesh has levels) and its material name |
| ModFile.MeshWeights | mod/mod_parser.py:292-557 | every weight row of a decoded blended mesh sums to one, and every single-bone weight is one |
| ModFile.MeshesSpec | mod/mod_parser.py:211-582 | there is one descriptor per mesh count; the meshes come one per descriptor whose encoding decodes, in descriptor order, each coherent with the skeleton's scale and its descriptor's level (0 when no mesh has levels); every decodable descriptor yields its mesh |
| ModFile.NoLodLevelZero | mod/mod_parser.py:223-225 | with no descriptor carrying levels of detail, every mesh is level 0 |
| ModReader.ReadRow | mod/mod_parser.py:177 | a row of four floats inside a record, read at the cursor |
| ModReader.ReadMatrix | mod/mod_parser.py:176-180 | a matrix read at the cursor equals the matrix at its offset; the cursor ends after it |
| ModReader.ReadBoneInfo | mod/mod_parser.py:159-169 | a bone record read field by field equals the record at its offset |
| ModReader.ReadHeaderFields | mod/mod_parser.py:114-142 | the header fields equal the header function of the first 144 bytes, or `Underrun` when they are not there |
| ModReader.ReadOffsets | mod/mod_parser.py:120-129 | the nine 64-bit sizes and offsets, each the field of the header record |
| ModReader.ReadBounds | mod/mod_parser.py:131-142 | the twelve bound floats, each the field of the header record |
| ModReader.ReadDescriptorCounts | mod/mod_parser.py:219-222 | descriptor bytes 0-7 as fields of the record |
| ModReader.ReadDescriptorBlock | mod/mod_parser.py:223-244 | descriptor bytes 7-16 as fields of the record |
| ModReader.ReadDescriptorBuffers | mod/mod_parser.py:246-252 | descriptor bytes 16-36 as fields of the record |
| ModReader.ReadDescriptorTail | mod/mod_parser.py:253-262 | descriptor bytes 36-56 are read, and the record fits |
| ModReader.ReadDescriptor | mod/mod_parser.py:217-262 | a descriptor read field by field equals the descriptor at its offset |
| ModReader.ReadBoneInfos | mod/mod_parser.py:158-171 | the bone-record loop equals the collection of records; the cursor ends after them |
| ModReader.ReadMatrices | mod/mod_parser.py:173-192 | the matrix loop equals the collection of matrices; the cursor ends after them |
| ModReader.ReadRemap | mod/mod_parser.py:193-205 | the 4096-byte loop over an identity table yields `RemapTable` of the bytes and, for each bone, the last position naming it or its own index; `Underrun` exactly when the table does not fit |
| ModReader.ModParser.constructor | mod/mod_parser.py:101-106 | the parser's cursor stands at 0 over the file's bytes |
| ModReader.ModParser.ReadHeader | mod/mod_parser.py:108-142 | equals `ParseHeader`; the magic and version read are kept on the parser |
| ModReader.ModParser.ReadMaterials | mod/mod_parser.py:147-151 | equals the material-name function |
| ModReader.ModParser.ReadSkeleton | mod/mod_parser.py:153-209 | equals `ParseSkeleton` |
| ModReader.ModParser.ReadDescriptors | mod/mod_parser.py:211-264 | equals the descriptor collection, and the flag it returns is "some descriptor has levels of detail" |
| ModReader.ModParser.ReadMesh | mod/mod_parser.py:267-582 | one pass of the mesh loop equals `MeshOf` for that descriptor |
| ModReader.ModParser.ReadMeshes | mod/mod_parser.py:267-582 | the mesh loop equals the kept meshes of every descriptor |
| ModReader.ModParser.Read | mod/mod_parser.py:108-584 | `read` equals `ParseMod` of the file's bytes; on success the magic and version are those required |
| MrlFile.MrlHeaderAccepted | mrl/mrl_parser.py:113-123 | the header is accepted exactly when the magic is 5001805 and the file holds 40 bytes; a wrong magic is reported with its value; every other failure is `Underrun` |
| MrlFile.SlotSize | mrl/mrl_parser.py:126-163 | every slot is at least 58 bytes; a path slot is 152, a zero slot 58, an unlisted discriminator 94 |
| MrlFile.SlotAt | mrl/mrl_parser.py:142-163 | a slot reads only when its discriminator fits, and the next slot starts at least 58 bytes later |
| MrlFile.SlotEntry | mrl/mrl_parser.py:143-163 | a slot adds nothing exactly for discriminator 0, and an empty entry exactly for a discriminator other than 0 and the path tag; a path comes only from the path tag and is the text 24 bytes in; the next slot is at the table stride |
| MrlFile.TexWalk | mrl/mrl_parser.py:137-163 | a successful walk yields exactly `tex_count` entries |
| MrlFile.TexWalkStep | mrl/mrl_parser.py:139-163 | one slot of the walk: a failed slot fails the walk, a zero slot adds nothing and does not count, any other slot's entry leads the rest |
| MrlFile.TexWalkNeedsRoom | mrl/mrl_parser.py:137-163 | a walk of `n` entries needs at least `58 (n-1) + 4` bytes from its start |
| MrlFile.PrependPathsTwice | mrl/mrl_parser.py:151-161 | appending paths in two steps is appending their concatenation (the walk's loop invariant) |
| MrlFile.MatInfoOf | mrl/mrl_parser.py:171-197 | the binding count is one byte, so below 256 |
| MrlFile.MatInfoAt | mrl/mrl_parser.py:171-197 | a material record reads exactly when its 72 bytes fit |
| MrlFile.BindingAt | mrl/mrl_parser.py:210-219 | a binding reads exactly when its 24 bytes fit |
| MrlFile.BindSpec | mrl/mrl_parser.py:221-230 | a texture binding fails exactly when `id - 1` is out of range for Python, with `IndexOutOfRange`; id 0 takes the last path and id `k > 0` path `k - 1`; a named property is added; unnamed or other kinds change nothing; the hashes never change |
| MrlFile.BindAllSound | mrl/mrl_parser.py:209-230 | every slot name a material carries comes from the resource dictionary, and every texture from the path table |
| MrlFile.BindAllStep | mrl/mrl_parser.py:209-230 | binding `j + 1` is read at `data_offset + 24 j` and applied to the material so far |
| MrlFile.BindAllSticky | mrl/mrl_parser.py:209-230 | once a binding fails, the material fails the same way |
| MrlFile.Library | mrl/mrl_parser.py:199-276 | the dictionary's keys are exactly the name hashes of the records |
| MrlFile.LibrarySticky | mrl/mrl_parser.py:199-276 | once a material fails, the dictionary fails the same way |
| MrlFile.LibraryOkIff | mrl/mrl_parser.py:199-276 | the dictionary is built exactly when every material's bindings are |
| MrlFile.LibraryLastWins | mrl/mrl_parser.py:274 | each name hash maps to the material of the last record carrying it |
| MrlFile.HexDigits | mrl/mrl_parser.py:222 | the digits of `hex(n)` are never empty |
| MrlFile.HexDigitBack | mrl/mrl_parser.py:222 | a digit reads back as its value, is a lower-case hex digit, and is '0' only for 0 |
| MrlFile.HexDigitsRoundTrip | mrl/mrl_parser.py:222 | the digits read back as `n`, all lower-case hex, with a leading '0' only for 0 |
| MrlFile.HexInjective | mrl/mrl_parser.py:222 | two hashes have the same dictionary key exactly when they are equal |
| MrlReader.ReadMrlHeaderFields | mrl/mrl_parser.py:117-123 | the header fields after the magic equal the header of the first 40 bytes, or `Underrun` when they are not there |
| MrlReader.ReadMatHashes | mrl/mrl_parser.py:173-177 | record bytes 0-16: the shader hash and the name hash as fields of the record |
| MrlReader.ReadMatCount | mrl/mrl_parser.py:179-185 | record bytes 16-32: the binding count byte at 28 |
| MrlReader.ReadMatOffset | mrl/mrl_parser.py:187-196 | record bytes 32-72: the binding offset at 56 |
| MrlReader.ReadMatInfo | mrl/mrl_parser.py:171-197 | a record read field by field equals the record at its offset; the cursor ends 72 bytes on |
| MrlReader.ReadBindingKind | mrl/mrl_parser.py:210-215 | binding bytes 0-8: the kind byte |
| MrlReader.ReadBinding | mrl/mrl_parser.py:210-219 | a binding read field by field equals the binding at its offset; the cursor ends 24 bytes on |
| MrlReader.ReadMatInfos | mrl/mrl_parser.py:168-197 | the record loop equals the collection of records |
| MrlReader.MrlParser.constructor | mrl/mrl_parser.py:97-102 | the parser's cursor stands at 0 over the file's bytes |
| MrlReader.MrlParser.ReadHeader | mrl/mrl_parser.py:113-123 | equals `ParseMrlHeader`; the magic read is kept on the parser, also when it is wrong |
| MrlReader.MrlParser.ReadSlot | mrl/mrl_parser.py:142-163 | one slot read at the cursor equals `SlotAt`; the cursor ends at the next slot |
| MrlReader.MrlParser.ReadTextures | mrl/mrl_parser.py:137-163 | the while loop equals the texture walk from the table offset |
| MrlReader.MrlParser.ApplyBinding | mrl/mrl_parser.py:221-230 | equals `Bind` of the material so far |
| MrlReader.MrlParser.ReadBindingInto | mrl/mrl_parser.py:209-230 | one pass of the binding loop equals the material after `j + 1` bindings |
| MrlReader.MrlParser.ReadMaterial | mrl/mrl_parser.py:200-230 | the binding loop equals the material of the record |
| MrlReader.MrlParser.ReadLibrary | mrl/mrl_parser.py:199-276 | the material loop equals the dictionary by name hash |
| MrlReader.MrlParser.Read | mrl/mrl_parser.py:113-276 | `read` equals `ParseMrl` of the file's bytes; on success the magic is 5001805 |
| Clc.ClcAccepted | mrl/clc_parser.py:104-118 | a tint file is accepted exactly when the magic is 4410435 and it holds 14 bytes; a wrong magic is reported with its value; every other failure is `Underrun` |
| Clc.ClcChannels | mrl/clc_parser.py:112-118 | each channel lies in [0, 1], and times 255 gives back its byte (bytes 11, 12, 13) |
| Clc.ClcIgnoresSkipped | mrl/clc_parser.py:108-111 | the word at 4 and bytes 8 to 10 do not affect the result |
| Clc.ClcParser.constructor | mrl/clc_parser.py:97-102 | the parser's cursor stands at 0 over the file's bytes |
| Clc.ClcParser.Read | mrl/clc_parser.py:104-118 | `read` equals `ParseClc`; on success the magic is 4410435 and the cursor is at 14 |

## Left out

- Blender, the add-on preferences, logging, `print`, file opening and the
  JSON files are left out. The resource dictionary and the extraction
  directory are parameters, and the path checks and the
  glob at arc/arc_parser.py:704-722 are not modelled: the archives and loose
  files arrive as sequences, and `separate` says whether the installation
  differs from the extraction directory.
- Blowfish decryption and zlib decompression are parameters. The model
  assumes they return the bytes, or fail for zlib.
- Floats are raw bit patterns. The position scaling by the bounding box,
  the UV flip `1.0 - v`, the normal and colour scaling and `mesh_scaling`
  are carried as columns or as decoder functions. Their numeric values
  are not modelled; the IndexError the UV flip raises on a UV array
  narrower than two columns is.
- The weight sums are exact reals: `Layouts.WeightsSumToOne` and
  `ModFile.MeshWeights` do not model float32 rounding.
- `Clc.ClcChannels`: the division by 255 is exact real division, not a
  double.
- Dictionaries are maps and sets, so Python's insertion order of
  `all_materials`, `textures` and `properties` is not modelled.
- The property value `None` is modelled as membership in a set.
- `readBytes_unpackbin` and `readBytes_to_int` are not used by the
  modelled parsers and are left out.
- `ModFile.SkeletonSpec` does not state the contents of bone `i` as one
  fact. It is split across `SkeletonParts`, `BuildSkeletonSpec`,
  `BoneInfosRead` and `MatricesRead`.
- `Cursor.Reader.Allign` divides exactly: the source's `int(offset/size)`
  divides in double precision, which can round differently when the offset
  is near 2^53 or above, and `Cursor.AlignedOffsetNext` holds for the exact
  quotient only.
- `Arc.RunIdempotent` requires, when the installation is the extraction
  directory, that the first run wrote no new file ending in `.arc`: the
  archive list is a parameter, while the source's second glob would also
  read the archives the first run extracted. It also requires the same
  classification and decryption function on both runs, because the model
  cannot see inside the decryption.
- The plain-archive branch at arc/arc_parser.py:748 slices from
  `bs.offset`. That is a `NameError` on the first archive, or the previous
  archive's cursor later. The corrected model slices from the header's end,
  as the encrypted branch does.
- The property binding whose hash the dictionary lacks only prints
  (mrl/mrl_parser.py:229-230); the model leaves the material unchanged.
- The shared-library loading and unloading around the extraction
  (arc/arc_parser.py:691-702, 821-823) is not modelled.

## Findings

| source | as written | input that shows it | evidently intended | confidence | as-written member | corrected member |
|---|---|---|---|---|---|---|
| arc/arc_parser.py:746 | `magic == b"ARC\x00"` compares the integer magic with a byte string, which is never equal, so every plain archive is reported unrecognised and skipped | a file starting `41 52 43 00` (magic 0x00435241) | plain archives are listed and extracted like encrypted ones, without decryption | not executed | Arc.ClassifyAsWritten (shown by Arc.ClassifyAsWrittenSkipsPlain) | Arc.Classify |
