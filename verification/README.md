# Schematics of the parkour plugin, modelled in Dafny

This project models the schematic subsystem of the parkour plugin. A
schematic is a box of blocks copied from the world. It can be saved to a
`.witp` text file, read back lazily, searched for a material, and pasted
at another anchor with one of four rotation angles. The schematic cache
loads the parkour pieces and spawn islands from the schematics folder
once and serves them by file name.

The model has seven modules:

- `Wrappers`: `Option`, `Result`, and the Java exceptions that can escape:
  `NullPointer`, `NumberFormat` and `IndexOutOfBounds`. A Java `null` is
  `None`.
- `Strings`: the Java string and integer helpers the code relies on.
  These are `Integer.toString`, `Integer.parseInt` with its 32-bit
  range, `String.split` (which drops trailing empty pieces),
  `StringJoiner`, `contains` and `endsWith`.
- `Geometry`: vectors and the `Dimensions` box, built from two corners
  or from a size. It also holds the `RotationAngle` enum and `rotate`,
  whose `switch` falls through.
- `Codec`: the `.witp` line format.
  - `SaveLines` is what `save` writes.
  - `StoredLines` is what a line reader gets back. The writer puts no
    separator after the block line, so an empty block line is not read
    back as a line.
  - `ParseLines` is the parse `read` performs, as written:
    - the palette loop, controlled by the `*` and `~` markers;
    - the split of the last line at `/`;
    - the `^\d+` id search and the last `(x,y,z)` match in each token;
    - the size on the first line.
  - `ParseLinesCorrected` is the same parse with an empty or `~` last
    line read as no block. It serves only to state the finding below.
- `CodecRoundTrip`: the proof that reading what `save` wrote gives back
  the same blocks, in the same order, and the same size, when `save`
  wrote at least one block. It also proves what the as-written parse
  returns for a save without blocks, and that the corrected parse
  round-trips that case too (see Findings).
- `Schematics`:
  - the `World` class, a block map in which an absent position is air;
  - the `Disk` class, which maps file names to their lines;
  - the `Schematic` class, with the fields `read`, `dimensions`,
    `blocks` and `file` and the methods `save`, `read`, `paste`,
    `findFromMaterial` and `getDimensions`. Each method is proved
    against a specification function (`ReadSpec`, `PasteSpec`,
    `FindSpec`) or against the saved lines. Lemmas state what those
    functions promise. `read` is modelled as written, so a schematic
    saved without blocks reads back one block with null fields.
- `Caching`: the `SchematicCache` class, with `read` (the version gate,
  the clear, the listing filter, the load loop and the unsupported
  count) and `getSchematic`.

The `SaveOptions` enum becomes the `skipAir` flag of `Save`.
`RotationAngle` becomes the `Geometry.RotationAngle` datatype. The
palette loop walks a `HashSet`, whose order is unspecified. `Save`
therefore picks each next entry with `:|`, and its contract holds for
whichever order is picked; the ghost result `order` names it.

The model follows the code on these points:

- `save` with no box or no block list logs an error and returns without
  throwing.
- Without schematic support, the cache `read` returns before clearing the
  cache, so the old cache is kept rather than emptied.
- Only a missing file is caught by `Schematic.read`. A malformed palette
  line, id or size line throws, and the exception ends the whole cache
  load. Failed files are not skipped.
- The scanned box includes both corners. Offsets therefore run from 0 up
  to and including the size (the maximum minus the minimum), not
  strictly below it.

## Model

| member | source | states |
|---|---|---|
| Geometry.Rotate | src/main/java/dev/efnilite/witp/schematic/Schematic.java:236-249 | rotate never changes y and keeps the magnitude of x and z |
| Geometry.RotateTable | src/main/java/dev/efnilite/witp/schematic/Schematic.java:238-248 | because of the fall-through, ANGLE_0 is the identity, ANGLE_90 and ANGLE_180 both give (-x, y, -z), and ANGLE_270 gives (x, y, -z) |
| Geometry.RotateInvolution | src/main/java/dev/efnilite/witp/schematic/Schematic.java:236-249 | rotating twice by the same angle gives the offset back |
| Geometry.RotateFixesOrigin | src/main/java/dev/efnilite/witp/schematic/Schematic.java:236-249 | the zero offset stays at the anchor under every angle |
| Geometry.RotateIsNotQuarterTurn | src/main/java/dev/efnilite/witp/schematic/Schematic.java:241-246 | two ANGLE_90 turns of (1,0,0) do not give the ANGLE_180 result, so the table is not a rotation |
| Geometry.FromCorners | src/main/java/dev/efnilite/witp/schematic/Schematic.java:56-60 | the box of two corners is the smallest valid box holding both, and its size is the per-axis distance between them |
| Geometry.ReanchorKeepsSize | src/main/java/dev/efnilite/witp/schematic/Schematic.java:220 | re-anchoring a box at `at` with its own size gives minimum `at` and the same size |
| Schematics.Schematic.Corners | src/main/java/dev/efnilite/witp/schematic/Schematic.java:56-66 | a new schematic from two corners (or a selection's corners) has their box, an empty block list, no file and the flag down |
| Schematics.Schematic.Empty | src/main/java/dev/efnilite/witp/schematic/Schematic.java:68-70 | the default schematic has every field null and the flag down |
| Schematics.Schematic.File | src/main/java/dev/efnilite/witp/schematic/Schematic.java:72-78 | file binds the schematic to the name with the `.witp` suffix and changes nothing else |
| Schematics.WithExtension | src/main/java/dev/efnilite/witp/schematic/Schematic.java:75 | the file name always ends in `.witp` and starts with the name given; a name without the suffix gets exactly `.witp` appended |
| Schematics.WithExtensionIdempotent | src/main/java/dev/efnilite/witp/schematic/Schematic.java:75 | a name that already ends in `.witp` is kept, so applying the rule twice changes nothing |
| Schematics.Schematic.Save | src/main/java/dev/efnilite/witp/schematic/Schematic.java:90-142 | with a null box or list, nothing changes; otherwise the scanned blocks are appended; a null file fails; a block with null data or offset leaves the file empty; otherwise the file holds the size line, `*`, one `i>data` line per distinct data string in some one-to-one order, `~` and the block line |
| Schematics.Schematic.ScanBox | src/main/java/dev/efnilite/witp/schematic/Schematic.java:97-103 | the scan loop appends exactly the scan of the visited positions to the block list and changes no other field |
| Schematics.ScanEveryPosition | src/main/java/dev/efnilite/witp/schematic/Schematic.java:97-103 | without SKIP_AIR, one block per visited position, in order, with the world's data and offset position minus minimum |
| Schematics.ScanSound | src/main/java/dev/efnilite/witp/schematic/Schematic.java:97-103 | every recorded block comes from a visited position that is kept (not air when SKIP_AIR is set) |
| Schematics.ScanComplete | src/main/java/dev/efnilite/witp/schematic/Schematic.java:97-103 | every visited position that is kept is recorded, so SKIP_AIR leaves out exactly the air |
| Schematics.ScanOffsetsInBox | src/main/java/dev/efnilite/witp/schematic/Schematic.java:97-103 | when the positions are those of the box, every recorded offset lies between zero and the size, bounds included |
| Schematics.ScanWholeBox | src/main/java/dev/efnilite/witp/schematic/Schematic.java:97-103 | a scan visiting each position of the box once records every kept position of the box, and without SKIP_AIR records one block per position, no two with the same offset |
| Schematics.MaterialOf | src/main/java/dev/efnilite/witp/schematic/Schematic.java:262 | the material of a data string is its longest prefix without `[` |
| Schematics.CollectData | src/main/java/dev/efnilite/witp/schematic/Schematic.java:116-118 | the distinct data strings are collected exactly when every block has data, and they are exactly the data of the blocks |
| Schematics.NumberPalette | src/main/java/dev/efnilite/witp/schematic/Schematic.java:120-126 | the palette numbers exactly the distinct data strings, 0..k-1 one-to-one in some order; one line is written per string, and line `i` is `i>data` for the string numbered `i` |
| Schematics.JoinTokens | src/main/java/dev/efnilite/witp/schematic/Schematic.java:131-139 | the joiner loop succeeds exactly when every block has data and offset, and then gives the `/`-joined `id(x,y,z)` tokens in list order |
| Codec.IndexMap | src/main/java/dev/efnilite/witp/schematic/Schematic.java:120-126 | every palette entry gets the id of its position in the order, ids are below k, and every id maps back to its entry |
| Codec.PaletteCoversBlocks | src/main/java/dev/efnilite/witp/schematic/Schematic.java:134 | every block's data has a palette id, so the lookup never yields null |
| Codec.MatchVecAt | src/main/java/dev/efnilite/witp/schematic/Schematic.java:181 | a vector match at a position ends after it and within the token |
| Codec.ParseTokens | src/main/java/dev/efnilite/witp/schematic/Schematic.java:184-199 | a successful block loop gives one block per token |
| Strings.ParseInt | src/main/java/dev/efnilite/witp/schematic/Schematic.java:174 | Integer.parseInt accepts only an optionally signed, non-empty run of digits with a value in the 32-bit range, and returns that value, negated after a `-`; an unsigned run of digits in range is always accepted |
| Strings.ParseIntIntStr | src/main/java/dev/efnilite/witp/schematic/Schematic.java:134 | parseInt reads back what Integer.toString printed, for every 32-bit value |
| Strings.NatStrValue | src/main/java/dev/efnilite/witp/schematic/Schematic.java:123 | the digits printed for an id read back as that id |
| Strings.SplitJoin | src/main/java/dev/efnilite/witp/schematic/Schematic.java:179 | splitting a `/`-join of non-empty tokens free of `/` gives the tokens back |
| Strings.PiecesOfJoin | src/main/java/dev/efnilite/witp/schematic/Schematic.java:179 | before dropping trailing empties, the pieces of a join are the joined strings |
| Strings.DropTrailingEmpty | src/main/java/dev/efnilite/witp/schematic/Schematic.java:179 | split's result is a prefix of the pieces that does not end in an empty piece, and every piece it drops is empty |
| Strings.MatchSignedIn | src/main/java/dev/efnilite/witp/schematic/Schematic.java:181 | the `-?\d+` part of the vector pattern matches a printed integer in full and yields its value |
| CodecRoundTrip.ParseSizeLine | src/main/java/dev/efnilite/witp/schematic/Schematic.java:202 | the size line save writes parses back to the box's size |
| CodecRoundTrip.ParsePaletteLineRoundTrip | src/main/java/dev/efnilite/witp/schematic/Schematic.java:173-174 | an `i>data` line with a storable data string splits back into the id and the data, and has no marker |
| CodecRoundTrip.PaletteScanLines | src/main/java/dev/efnilite/witp/schematic/Schematic.java:165-176 | the palette loop over the written palette lines, stopped by `~`, rebuilds the id-to-data map |
| CodecRoundTrip.PaletteOfSavedLines | src/main/java/dev/efnilite/witp/schematic/Schematic.java:165-176 | scanning the whole saved file skips the size line, starts at `*` and yields exactly the palette written |
| CodecRoundTrip.ParseBlockToken | src/main/java/dev/efnilite/witp/schematic/Schematic.java:186-196 | in a written token `id(x,y,z)`, the id search finds the id and the last vector match is the offset |
| CodecRoundTrip.MatchVecPrinted | src/main/java/dev/efnilite/witp/schematic/Schematic.java:192-196 | the vector pattern matches a printed `(x,y,z)` exactly and yields that vector |
| CodecRoundTrip.LastMatchAt | src/main/java/dev/efnilite/witp/schematic/Schematic.java:194-196 | the last match is the one at the last `(` that starts a match |
| CodecRoundTrip.ParseTokensRoundTrip | src/main/java/dev/efnilite/witp/schematic/Schematic.java:184-199 | the block loop over the written tokens gives back the blocks, in order |
| CodecRoundTrip.SplitBlockLine | src/main/java/dev/efnilite/witp/schematic/Schematic.java:179 | splitting the written block line gives back its tokens |
| CodecRoundTrip.StoredSavedLines | src/main/java/dev/efnilite/witp/schematic/Schematic.java:139 | with at least one block, the line reader returns every line save wrote |
| CodecRoundTrip.RoundTrip | src/main/java/dev/efnilite/witp/schematic/Schematic.java:110-203 | for a non-empty block list with storable data, the as-written parse of what save stored gives back the same blocks, in order, and the size |
| CodecRoundTrip.EmptySaveReadsPhantomBlock | src/main/java/dev/efnilite/witp/schematic/Schematic.java:178-199 | when save stored no block, the as-written parse reads the `~` line as one block with null data and null offset |
| CodecRoundTrip.StoredEmptySave | src/main/java/dev/efnilite/witp/schematic/Schematic.java:139 | when save wrote no block, the line reader gets back only the size line and the two markers: the empty block line is lost |
| CodecRoundTrip.RoundTripCorrected | src/main/java/dev/efnilite/witp/schematic/Schematic.java:110-203 | with the empty block line recognised, every block list, empty or not, round-trips |
| Schematics.ReadSpec | src/main/java/dev/efnilite/witp/schematic/Schematic.java:148-204 | read keeps the file; the flag ends up set exactly when it was set or the file exists; a change to the dimensions means success and a box at the origin |
| Schematics.Schematic.Read | src/main/java/dev/efnilite/witp/schematic/Schematic.java:148-204 | the method's new state and exception are those of ReadSpec |
| Schematics.ScanPalette | src/main/java/dev/efnilite/witp/schematic/Schematic.java:163-176 | the palette loop gives the palette scan of the lines, or its first exception |
| Schematics.ParseBlockLine | src/main/java/dev/efnilite/witp/schematic/Schematic.java:178-199 | the block loop parses the tokens of the last line, split at `/` whatever it holds, in order, stopping at the first failure |
| Schematics.ReadIdempotent | src/main/java/dev/efnilite/witp/schematic/Schematic.java:148-151 | once read has run on an existing file, running it again, on any disk, changes nothing and raises nothing |
| Schematics.ReadFlagSet | src/main/java/dev/efnilite/witp/schematic/Schematic.java:148-151 | with the read flag set, read returns at once: state unchanged, nothing raised, whatever the disk holds |
| Schematics.ReadMissingFile | src/main/java/dev/efnilite/witp/schematic/Schematic.java:152-160 | a file that cannot be opened leaves the flag down and every field untouched |
| Schematics.ReadAnchorsAtOrigin | src/main/java/dev/efnilite/witp/schematic/Schematic.java:202-203 | a read that succeeds sets the dimensions to a box at the origin whose size is the first line's vector |
| Schematics.SaveThenRead | src/main/java/dev/efnilite/witp/schematic/Schematic.java:90-204 | reading the file save wrote, with at least one block, restores the block list and a box of the same size at the origin |
| Schematics.EmptySaveRead | src/main/java/dev/efnilite/witp/schematic/Schematic.java:148-204 | reading a save that wrote no block sets the flag, raises nothing, and leaves one block with null data and offset and a box of the saved size at the origin |
| Schematics.EmptySaveThenRead | src/main/java/dev/efnilite/witp/schematic/Schematic.java:178-199 | a schematic saved without blocks reads back one block with null data and offset and the saved size; a paste of it then throws NullPointer before writing anything, and so does a search by material |
| Schematics.World.SetBlockData | src/main/java/dev/efnilite/witp/schematic/Schematic.java:230 | setting a block changes that one position and no other |
| Schematics.PasteWrites | src/main/java/dev/efnilite/witp/schematic/Schematic.java:224-232 | one write per block, in order, at the anchor plus the rotated offset with the block's data, until a block with null data or offset fails |
| Schematics.StampAt | src/main/java/dev/efnilite/witp/schematic/Schematic.java:229-230 | after the writes, a position holds the data of the last write to it |
| Schematics.StampElsewhere | src/main/java/dev/efnilite/witp/schematic/Schematic.java:229-230 | a position no write touches keeps its block |
| Schematics.PasteStopsAt | src/main/java/dev/efnilite/witp/schematic/Schematic.java:224-232 | the first incomplete block ends the loop with a null-pointer failure, after the writes of the blocks before it |
| Schematics.PasteSpec | src/main/java/dev/efnilite/witp/schematic/Schematic.java:218-234 | paste keeps the block list and the flag as read left them; when it raises nothing, it returns one position per block |
| Schematics.PasteResult | src/main/java/dev/efnilite/witp/schematic/Schematic.java:218-234 | a successful paste re-anchors the box at `at` with its size unchanged, keeps the blocks, returns, in order, the anchor plus each rotated offset, and leaves each block's data at its position unless a later block overwrote it |
| Schematics.PastePositionInjective | src/main/java/dev/efnilite/witp/schematic/Schematic.java:226-228 | distinct offsets land on distinct positions under every angle |
| Schematics.PasteBlocks | src/main/java/dev/efnilite/witp/schematic/Schematic.java:224-233 | the paste loop leaves the world stamped with the writes of PasteWrites and returns their positions, or fails as PasteWrites does |
| Schematics.Schematic.Paste | src/main/java/dev/efnilite/witp/schematic/Schematic.java:218-234 | the method's new state, world, affected list and exception are those of PasteSpec |
| Schematics.FirstMatch | src/main/java/dev/efnilite/witp/schematic/Schematic.java:261-266 | a block found is in the list, has data and has the material asked for |
| Schematics.FirstMatchNone | src/main/java/dev/efnilite/witp/schematic/Schematic.java:261-266 | the search finds nothing, without failing, exactly when every block has data of another material |
| Schematics.FirstMatchIsFirst | src/main/java/dev/efnilite/witp/schematic/Schematic.java:261-265 | a block found is the first one with the material, and every block before it has data |
| Schematics.FindSpec | src/main/java/dev/efnilite/witp/schematic/Schematic.java:259-267 | findFromMaterial reads first, and a block found is one of the blocks read |
| Schematics.Schematic.FindFromMaterial | src/main/java/dev/efnilite/witp/schematic/Schematic.java:259-267 | the method's new state, result and exception are those of FindSpec |
| Schematics.Schematic.GetDimensions | src/main/java/dev/efnilite/witp/schematic/Schematic.java:269-272 | getDimensions reads first and returns the dimensions read left |
| Caching.FilterNames | src/main/java/dev/efnilite/witp/schematic/SchematicCache.java:29 | the filtered listing is no longer than the listing |
| Caching.FilterNamesAppend | src/main/java/dev/efnilite/witp/schematic/SchematicCache.java:29 | the filter keeps the listing's order: the filtered concatenation of two listings is the concatenation of their filtered listings |
| Caching.FilterNamesMembers | src/main/java/dev/efnilite/witp/schematic/SchematicCache.java:29 | the filter keeps exactly the listed names containing `parkour-` or `spawn-island` |
| Caching.LoadKeys | src/main/java/dev/efnilite/witp/schematic/SchematicCache.java:30-37 | every cached name is a loaded name with the supported state its read produced; when no read failed, every loaded name whose schematic is supported is cached |
| Caching.LoadSize | src/main/java/dev/efnilite/witp/schematic/SchematicCache.java:38 | the cache never holds more entries than there were names |
| Caching.LoadStops | src/main/java/dev/efnilite/witp/schematic/SchematicCache.java:33 | once a read has thrown, the remaining names change nothing |
| Caching.LoadFromListing | src/main/java/dev/efnilite/witp/schematic/SchematicCache.java:27-38 | after a load, only filtered names are keys, each exactly when its schematic is supported (if no read failed), and the unsupported count is never negative |
| Caching.Load | src/main/java/dev/efnilite/witp/schematic/SchematicCache.java:32-33 | a fresh schematic bound to the name and read ends in the state and exception of ReadSpec for that file |
| Caching.LoadAll | src/main/java/dev/efnilite/witp/schematic/SchematicCache.java:30-37 | the load loop's cache and exception are those of the load specification |
| Caching.SchematicCache.constructor | src/main/java/dev/efnilite/witp/schematic/SchematicCache.java:16 | the cache starts empty |
| Caching.SchematicCache.Read | src/main/java/dev/efnilite/witp/schematic/SchematicCache.java:18-41 | without schematic support nothing changes; a folder that cannot be listed fails after the clear; otherwise the cache is cleared and holds exactly what the load specification gives for the filtered names, and the count reported is the number of filtered names minus the cache size |
| Caching.SchematicCache.GetSchematic | src/main/java/dev/efnilite/witp/schematic/SchematicCache.java:43-45 | the lookup returns the entry under the name exactly when there is one, and changes nothing |

## Left out

- The Bukkit world (`Block`, `Location`, `Material`, `setBlockData`) is an abstract map from positions to block-data strings, with air where nothing is stored.
- `Util.getBlocks` is not part of this model. Its visiting order is the parameter `positions`. `Schematics.ScanWholeBox` states what a scan records when that parameter lists each position of the box once.
- `Util.toString` and `Util.parseVector` are not part of this model. They are assumed to print `(x,y,z)` and to read the `-?\d+,-?\d+,-?\d+` vector out of a line, and a line without a vector is taken to throw `NumberFormat`.
- `Dimensions` is not part of this model. It is taken as a min/max box whose `toString` prints its size as `x,y,z`.
- `Bukkit.createBlockData` is not part of this model. Data strings are kept verbatim, and an unknown data string raising an exception is not modelled.
- A material is the text of the data string before `[`. The real `Material` lookup is not modelled.
- File I/O is line-granular. `IOException`, `mkdirs`, the data folder path and line separators inside data strings are not modelled.
- A null data or offset met during save or paste is a `NullPointer` at that block. The writer is then neither flushed nor closed, so the file is left empty as long as what was written still fits in the writer's buffer.
- The round trip is proved for data strings free of `*`, `~` and `>`, the characters `read` tests for, and free of line breaks, which the line reader would split the palette line at.
- Coordinates and the running palette index are unbounded integers. Only ids passed through `Integer.parseInt` are limited to 32 bits: the round trip asks for at most 2^31 palette entries.
- `rotate` returns a new vector. Whether `Vector.multiply` changes a stored offset in place through an alias is not modelled, and paste leaves the stored offsets unchanged.
- The regular-expression find loops in read are modelled by the functions `Codec.TokenId` and `Codec.LastVecMatch`, not by loops.
- `hasFile` and `getFile` are plain field accessors and are not modelled. The `Selection` constructor is `Corners` applied to the selection's two corners.
- `isSupported` is not defined in Schematic.java; SchematicCache.java:34 calls it. It becomes a function parameter over the schematic's state.
- `Tasks.asyncTask`, timing and logging in the cache are left out. The load runs as one sequential method, and the static `cache` map is a field of a `SchematicCache` object.
- Strings.ParseInt: only the ASCII digits `0` to `9` are accepted. Java's `parseInt` also accepts other Unicode decimal digits; the ids and sizes read here are printed with ASCII digits.
- Caching.SchematicCache.GetSchematic: the cache holds each loaded schematic's state, not a shared `Schematic` object. A later paste re-anchoring the cached object in place is therefore not reflected in the cache.

## Findings

| source | as written | input that shows it | evidently intended | confidence | as-written member | corrected member |
|---|---|---|---|---|---|---|
| src/main/java/dev/efnilite/witp/schematic/Schematic.java:178-199 | read always parses the last line read as the block line; when save wrote no block, the block line is empty and, with no separator after it, is not read back, so the last line is the `~` marker | a schematic whose box is all air saved with SKIP_AIR (no blocks): reading it back gives one block with null data and null offset, which a later paste dereferences | an empty block line, or the `~` marker as the last line, holds no block, so the empty list round-trips | not executed | CodecRoundTrip.EmptySaveReadsPhantomBlock | CodecRoundTrip.RoundTripCorrected |
