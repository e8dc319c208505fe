/**
 * A schematic: a bounding box and a list of blocks, saved to and read from
 * a .witp file, and pasted into the world at an anchor and an angle.
 */
module Schematics {
  import opened Wrappers
  import opened Strings
  import opened Geometry
  import opened Codec
  import opened CodecRoundTrip

  /** The block data of a position nothing has been placed at. */
  const AIR: BlockData := "minecraft:air"

  /** The material of AIR, the only one SKIP_AIR leaves out. */
  const AIR_MATERIAL: string := "minecraft:air"

  /** The suffix every schematic file name carries. */
  const EXTENSION: string := ".witp"

  /**
   * getMaterial of a block state: its namespaced name, which is the text of
   * the state up to the property list in brackets.
   */
  function MaterialOf(data: BlockData): (m: string)
    ensures |m| <= |data| && m == data[..|m|] && '[' !in m
    ensures |m| < |data| ==> data[|m|] == '['
    decreases |data|
  {
    if data == [] || data[0] == '[' then [] else [data[0]] + MaterialOf(data[1..])
  }

  predicate IsAir(data: BlockData) {
    MaterialOf(data) == AIR_MATERIAL
  }

  // ---------------------------------------------------------------- the world

  /** The block data at a position; positions never set hold air. */
  function BlockIn(w: map<Vec, BlockData>, p: Vec): BlockData {
    if p in w then w[p] else AIR
  }

  /** The world a schematic is saved from and pasted into. */
  class World {
    var blocks: map<Vec, BlockData>

    constructor (blocks: map<Vec, BlockData>)
      ensures this.blocks == blocks
    {
      this.blocks := blocks;
    }

    function BlockAt(p: Vec): BlockData
      reads this
    {
      BlockIn(blocks, p)
    }

    /** Block.setBlockData: the block at p takes the data. */
    method SetBlockData(p: Vec, data: BlockData)
      modifies this
      ensures blocks == old(blocks)[p := data]
    {
      blocks := blocks[p := data];
    }
  }

  /** The schematics folder: each file name with the lines a reader gets from it. */
  class Disk {
    var files: map<string, seq<string>>

    constructor (files: map<string, seq<string>>)
      ensures this.files == files
    {
      this.files := files;
    }
  }

  // ---------------------------------------------------------------- saving

  /** Util.getBlocks(max, min) visits every position of the box exactly once. */
  ghost predicate IsBoxEnumeration(ps: seq<Vec>, d: Dimensions) {
    (forall i, j :: 0 <= i < j < |ps| ==> ps[i] != ps[j]) &&
    (forall p :: p in ps <==> d.Contains(p))
  }

  /** The block save records for position p: its data and its offset from the minimum corner. */
  function BlockOf(w: map<Vec, BlockData>, p: Vec, min: Vec): SchematicBlock {
    SchematicBlock(Some(BlockIn(w, p)), Some(p.Sub(min)))
  }

  /** Whether save records position p: always, unless SKIP_AIR is set and p holds air. */
  predicate Kept(w: map<Vec, BlockData>, p: Vec, skipAir: bool) {
    !(skipAir && IsAir(BlockIn(w, p)))
  }

  /** The blocks the scan loop of save appends, for the positions visited so far. */
  function ScanBlocks(w: map<Vec, BlockData>, ps: seq<Vec>, min: Vec, skipAir: bool): (r: seq<SchematicBlock>)
    ensures |r| <= |ps|
    decreases |ps|
  {
    if ps == [] then []
    else
      var p := ps[|ps| - 1];
      ScanBlocks(w, ps[..|ps| - 1], min, skipAir) + (if Kept(w, p, skipAir) then [BlockOf(w, p, min)] else [])
  }

  /** The scan loop's step: visiting one more position appends its block when it is kept. */
  lemma ScanBlocksStep(w: map<Vec, BlockData>, ps: seq<Vec>, i: nat, min: Vec, skipAir: bool)
    requires i < |ps|
    ensures ScanBlocks(w, ps[..i + 1], min, skipAir) ==
      ScanBlocks(w, ps[..i], min, skipAir) + (if Kept(w, ps[i], skipAir) then [BlockOf(w, ps[i], min)] else [])
  {
    assert ps[..i + 1][..i] == ps[..i];
  }

  /** Without SKIP_AIR, save records one block per position, in the order visited. */
  lemma {:induction false} ScanEveryPosition(w: map<Vec, BlockData>, ps: seq<Vec>, min: Vec)
    ensures |ScanBlocks(w, ps, min, false)| == |ps|
    ensures forall i :: 0 <= i < |ps| ==> ScanBlocks(w, ps, min, false)[i] == BlockOf(w, ps[i], min)
    decreases |ps|
  {
    if ps != [] {
      ScanEveryPosition(w, ps[..|ps| - 1], min);
    }
  }

  /** Every recorded block comes from a visited position that is kept. */
  lemma {:induction false} ScanSound(w: map<Vec, BlockData>, ps: seq<Vec>, min: Vec, skipAir: bool)
    ensures forall b :: b in ScanBlocks(w, ps, min, skipAir) ==>
      exists p :: p in ps && Kept(w, p, skipAir) && b == BlockOf(w, p, min)
    decreases |ps|
  {
    if ps != [] {
      var init := ps[..|ps| - 1];
      ScanSound(w, init, min, skipAir);
      forall b | b in ScanBlocks(w, ps, min, skipAir)
        ensures exists p :: p in ps && Kept(w, p, skipAir) && b == BlockOf(w, p, min)
      {
        if b in ScanBlocks(w, init, min, skipAir) {
          var p :| p in init && Kept(w, p, skipAir) && b == BlockOf(w, p, min);
          assert p in ps;
        } else {
          assert ps[|ps| - 1] in ps;
        }
      }
    }
  }

  /** Every visited position that is kept is recorded: SKIP_AIR leaves out the air and nothing else. */
  lemma {:induction false} ScanComplete(w: map<Vec, BlockData>, ps: seq<Vec>, min: Vec, skipAir: bool)
    ensures forall p :: p in ps && Kept(w, p, skipAir) ==> BlockOf(w, p, min) in ScanBlocks(w, ps, min, skipAir)
    decreases |ps|
  {
    if ps != [] {
      var init := ps[..|ps| - 1];
      ScanComplete(w, init, min, skipAir);
      forall p | p in ps && Kept(w, p, skipAir)
        ensures BlockOf(w, p, min) in ScanBlocks(w, ps, min, skipAir)
      {
        if p in init {
          assert BlockOf(w, p, min) in ScanBlocks(w, init, min, skipAir);
        } else {
          assert p == ps[|ps| - 1];
        }
      }
    }
  }

  /** Scanning a box records offsets between the origin and the size of the box. */
  lemma {:induction false} ScanOffsetsInBox(w: map<Vec, BlockData>, ps: seq<Vec>, d: Dimensions, skipAir: bool)
    requires forall p :: p in ps ==> d.Contains(p)
    ensures forall b :: b in ScanBlocks(w, ps, d.min, skipAir) ==>
      b.offset.Some? && 0 <= b.offset.value.x <= d.Size().x && 0 <= b.offset.value.y <= d.Size().y && 0 <= b.offset.value.z <= d.Size().z
  {
    ScanSound(w, ps, d.min, skipAir);
  }

  /**
   * A scan of a whole box, each position visited once: every kept position
   * of the box is recorded, and without SKIP_AIR there is one block per
   * position of the box, no two with the same offset.
   */
  lemma ScanWholeBox(w: map<Vec, BlockData>, ps: seq<Vec>, d: Dimensions, skipAir: bool)
    requires IsBoxEnumeration(ps, d)
    ensures forall p :: d.Contains(p) && Kept(w, p, skipAir) ==> BlockOf(w, p, d.min) in ScanBlocks(w, ps, d.min, skipAir)
    ensures !skipAir ==> var bs := ScanBlocks(w, ps, d.min, false);
      |bs| == |ps| && forall i, j :: 0 <= i < j < |bs| ==> bs[i].offset != bs[j].offset
  {
    ScanComplete(w, ps, d.min, skipAir);
    ScanEveryPosition(w, ps, d.min);
  }

  // ---------------------------------------------------------------- the schematic's state

  /** The fields of a schematic; null fields are None. */
  datatype SchematicState = SchematicState(
    read: bool,
    dimensions: Option<Dimensions>,
    blocks: Option<seq<SchematicBlock>>,
    file: Option<string>)

  /**
   * read: nothing once the flag is set; a null file fails; a missing file is
   * reported and changes nothing; otherwise the flag is set, the blocks are
   * replaced once every token parsed and the dimensions once the size line
   * parsed, anchored at the origin.
   */
  function ReadSpec(s: SchematicState, files: map<string, seq<string>>): (r: (SchematicState, Option<JavaException>))
    ensures r.0.file == s.file
    ensures r.0.read == (s.read || (s.file.Some? && s.file.value in files))
    ensures r.0.dimensions != s.dimensions ==> r.1.None? && r.0.dimensions.Some? && r.0.dimensions.value.min == Origin
  {
    if s.read then (s, None)
    else if s.file.None? then (s, Some(NullPointer))
    else if s.file.value !in files then (s, None)
    else
      match ParseLines(files[s.file.value])
      case Failed(e) => (s.(read := true), Some(e))
      case SizeFailed(bs, e) => (s.(read := true, blocks := Some(bs)), Some(e))
      case Parsed(bs, size) => (s.(read := true, blocks := Some(bs), dimensions := Some(FromSize(size))), None)
  }

  /** Once the flag is set, read changes nothing and raises nothing, whatever the disk holds. */
  lemma ReadFlagSet(s: SchematicState, files: map<string, seq<string>>)
    requires s.read
    ensures ReadSpec(s, files) == (s, None)
  {
  }

  /**
   * Once read has run on an existing file, running it again, even after the
   * disk changed, changes nothing and raises nothing.
   */
  lemma ReadIdempotent(s: SchematicState, files: map<string, seq<string>>, later: map<string, seq<string>>)
    requires s.file.Some? && s.file.value in files
    ensures ReadSpec(ReadSpec(s, files).0, later) == (ReadSpec(s, files).0, None)
  {
    ReadFlagSet(ReadSpec(s, files).0, later);
  }

  /** A file that cannot be opened leaves the flag down and the blocks and dimensions untouched. */
  lemma ReadMissingFile(s: SchematicState, files: map<string, seq<string>>)
    requires !s.read && s.file.Some? && s.file.value !in files
    ensures ReadSpec(s, files) == (s, None)
  {
  }

  /** A read that raises nothing sets the dimensions to the size on the first line, anchored at the origin. */
  lemma ReadAnchorsAtOrigin(s: SchematicState, files: map<string, seq<string>>)
    requires !s.read && s.file.Some? && s.file.value in files
    requires ReadSpec(s, files).1.None?
    ensures var d := ReadSpec(s, files).0.dimensions;
      d.Some? && d.value.min == Origin && |files[s.file.value]| > 0 &&
      ParseVector(files[s.file.value][0]) == Some(d.value.Size())
  {
  }

  /**
   * Reading the file save wrote gives back the blocks it held, in order, and a
   * box of the same size at the origin, when save wrote at least one block.
   */
  lemma SaveThenRead(s: SchematicState, files: map<string, seq<string>>, d: Dimensions, order: seq<BlockData>, bs: seq<SchematicBlock>)
    requires !s.read && s.file.Some?
    requires |bs| > 0 && AllComplete(bs) && AllStorable(bs)
    requires IsEnumeration(order, DataSet(bs)) && |order| <= INT_MAX + 1
    ensures var r := ReadSpec(s, files[s.file.value := StoredLines(SaveLines(d, order, bs))]);
      r.1.None? && r.0.blocks == Some(bs) && r.0.dimensions == Some(FromSize(d.Size()))
  {
    RoundTrip(d, order, bs);
  }

  /** The read of a save that wrote no block: the flag, one block with null fields, and the saved size. */
  lemma EmptySaveRead(s: SchematicState, files: map<string, seq<string>>, d: Dimensions)
    requires !s.read && s.file.Some?
    ensures ReadSpec(s, files[s.file.value := StoredLines(SaveLines(d, [], []))]) ==
      (s.(read := true, blocks := Some([SchematicBlock(None, None)]), dimensions := Some(FromSize(d.Size()))), None)
  {
    EmptySaveReadsPhantomBlock(d);
  }

  /**
   * A save that wrote no block reads back as one block with null data and a
   * null offset, so a paste of it fails on that block before writing
   * anything, and so does a search by material.
   */
  lemma EmptySaveThenRead(s: SchematicState, files: map<string, seq<string>>, d: Dimensions,
                          at: Vec, angle: RotationAngle, w: map<Vec, BlockData>, material: string)
    requires !s.read && s.file.Some?
    ensures var saved := files[s.file.value := StoredLines(SaveLines(d, [], []))];
      var r := ReadSpec(s, saved);
      r.1.None? && r.0.blocks == Some([SchematicBlock(None, None)]) &&
      r.0.dimensions == Some(FromSize(d.Size())) &&
      PasteSpec(s, saved, at, angle, w).1 == w && PasteSpec(s, saved, at, angle, w).3 == Some(NullPointer) &&
      FindSpec(s, saved, material).2 == Some(NullPointer)
  {
    var phantom := SchematicBlock(None, None);
    EmptySaveRead(s, files, d);
    var box := FromCorners(at, at.Add(d.Size()));
    assert [phantom][..0] == [];
    assert PasteWrites([phantom], box.min, angle) == ([], Some(NullPointer));
    assert FirstMatch([phantom], material) == Err(NullPointer);
  }

  // ---------------------------------------------------------------- pasting

  /** Where paste puts a block: the minimum corner plus its rotated offset. */
  function PastePosition(min: Vec, offset: Vec, angle: RotationAngle): Vec {
    min.Add(Rotate(offset, angle))
  }

  /**
   * The writes the paste loop makes, in list order, and the exception that
   * stops it at the first block with a null offset or null data.
   */
  function PasteWrites(bs: seq<SchematicBlock>, min: Vec, angle: RotationAngle): (r: (seq<(Vec, BlockData)>, Option<JavaException>))
    ensures |r.0| <= |bs|
    ensures r.1.None? ==> |r.0| == |bs|
    ensures r.1.Some? ==> |r.0| < |bs| && !Complete(bs[|r.0|])
    ensures forall i :: 0 <= i < |r.0| ==>
      Complete(bs[i]) && r.0[i] == (PastePosition(min, bs[i].offset.value, angle), bs[i].data.value)
    decreases |bs|
  {
    if bs == [] then ([], None)
    else
      var prev := PasteWrites(bs[..|bs| - 1], min, angle);
      var b := bs[|bs| - 1];
      if prev.1.Some? then prev
      else if !Complete(b) then (prev.0, Some(NullPointer))
      else (prev.0 + [(PastePosition(min, b.offset.value, angle), b.data.value)], None)
  }

  /** The world after a sequence of writes, the later one winning at a position written twice. */
  function Stamp(w: map<Vec, BlockData>, writes: seq<(Vec, BlockData)>): map<Vec, BlockData>
    decreases |writes|
  {
    if writes == [] then w
    else
      var last := writes[|writes| - 1];
      Stamp(w, writes[..|writes| - 1])[last.0 := last.1]
  }

  /** Positions no write names keep their block. */
  lemma {:induction false} StampElsewhere(w: map<Vec, BlockData>, writes: seq<(Vec, BlockData)>, p: Vec)
    requires forall i :: 0 <= i < |writes| ==> writes[i].0 != p
    ensures BlockIn(Stamp(w, writes), p) == BlockIn(w, p)
    decreases |writes|
  {
    if writes != [] {
      StampElsewhere(w, writes[..|writes| - 1], p);
    }
  }

  /** When no later write names the same position, a write's data is what the world holds there. */
  lemma {:induction false} StampAt(w: map<Vec, BlockData>, writes: seq<(Vec, BlockData)>, i: nat)
    requires i < |writes|
    requires forall j :: i < j < |writes| ==> writes[j].0 != writes[i].0
    ensures BlockIn(Stamp(w, writes), writes[i].0) == writes[i].1
    decreases |writes|
  {
    if i < |writes| - 1 {
      StampAt(w, writes[..|writes| - 1], i);
    }
  }

  /**
   * paste: read first (an exception from it ends paste); a null size fails;
   * the box is moved to the anchor keeping its size; then every block is
   * written, in order, until one with a null offset or data fails. The
   * affected positions are returned only when every block was written.
   */
  function PasteSpec(s: SchematicState, files: map<string, seq<string>>, at: Vec, angle: RotationAngle, w: map<Vec, BlockData>)
    : (r: (SchematicState, map<Vec, BlockData>, seq<Vec>, Option<JavaException>))
    ensures r.0.blocks == ReadSpec(s, files).0.blocks && r.0.read == ReadSpec(s, files).0.read
    ensures r.3.None? ==> r.0.blocks.Some? && |r.2| == |r.0.blocks.value|
  {
    var (s1, thrown) := ReadSpec(s, files);
    if thrown.Some? then (s1, w, [], thrown)
    else if s1.dimensions.None? then (s1, w, [], Some(NullPointer))
    else
      var d := FromCorners(at, at.Add(s1.dimensions.value.Size()));
      var s2 := s1.(dimensions := Some(d));
      if s2.blocks.None? then (s2, w, [], Some(NullPointer))
      else
        var (writes, e) := PasteWrites(s2.blocks.value, d.min, angle);
        (s2, Stamp(w, writes), if e.None? then Targets(writes) else [], e)
  }

  /**
   * A paste that raises nothing moves the box to the anchor, keeps its size,
   * keeps the block list, and returns one position per block, in list order:
   * the anchor plus the rotated offset, where the world now holds the block's
   * data unless a later block of the list landed on the same position.
   */
  lemma PasteResult(s: SchematicState, files: map<string, seq<string>>, at: Vec, angle: RotationAngle, w: map<Vec, BlockData>)
    requires PasteSpec(s, files, at, angle, w).3.None?
    ensures var s1 := ReadSpec(s, files).0;
      var (s2, w2, affected, _) := PasteSpec(s, files, at, angle, w);
      s1.dimensions.Some? && s2.blocks == s1.blocks && s2.blocks.Some? &&
      var size := s1.dimensions.value.Size();
      var bs := s2.blocks.value;
      s2.dimensions == Some(FromCorners(at, at.Add(size))) &&
      (size.x >= 0 && size.y >= 0 && size.z >= 0 ==> s2.dimensions.value.min == at && s2.dimensions.value.Size() == size) &&
      |affected| == |bs| &&
      forall i :: 0 <= i < |bs| ==>
        Complete(bs[i]) &&
        affected[i] == PastePosition(s2.dimensions.value.min, bs[i].offset.value, angle) &&
        ((forall j :: i < j < |bs| ==> affected[j] != affected[i]) ==> BlockIn(w2, affected[i]) == bs[i].data.value)
  {
    var s1 := ReadSpec(s, files).0;
    var size := s1.dimensions.value.Size();
    var d := FromCorners(at, at.Add(size));
    var bs := s1.blocks.value;
    var writes := PasteWrites(bs, d.min, angle).0;
    if size.x >= 0 && size.y >= 0 && size.z >= 0 {
      ReanchorKeepsSize(at, size);
    }
    forall i | 0 <= i < |bs| && (forall j :: i < j < |bs| ==> writes[j].0 != writes[i].0)
      ensures BlockIn(Stamp(w, writes), writes[i].0) == bs[i].data.value
    {
      StampAt(w, writes, i);
    }
  }

  /** The paste transform keeps distinct offsets apart, so distinct offsets land on distinct positions. */
  lemma PastePositionInjective(min: Vec, a: Vec, b: Vec, angle: RotationAngle)
    requires a != b
    ensures PastePosition(min, a, angle) != PastePosition(min, b, angle)
  {
    RotateInvolution(a, angle);
    RotateInvolution(b, angle);
  }

  // ---------------------------------------------------------------- lookups

  /**
   * The search loop of findFromMaterial: the first block whose material is
   * the one asked for, none when no block has it, and a failure at the first
   * block with null data met before a match.
   */
  function FirstMatch(bs: seq<SchematicBlock>, material: string): (r: Result<Option<SchematicBlock>, JavaException>)
    ensures r.Ok? && r.value.Some? ==> r.value.value in bs && r.value.value.data.Some? && MaterialOf(r.value.value.data.value) == material
    decreases |bs|
  {
    if bs == [] then Ok(None)
    else if bs[0].data.None? then Err(NullPointer)
    else if MaterialOf(bs[0].data.value) == material then Ok(Some(bs[0]))
    else FirstMatch(bs[1..], material)
  }

  /** No block of the list has the material, and none before it has null data, exactly when the search finds nothing. */
  lemma {:induction false} FirstMatchNone(bs: seq<SchematicBlock>, material: string)
    ensures FirstMatch(bs, material) == Ok(None) <==>
      forall i :: 0 <= i < |bs| ==> bs[i].data.Some? && MaterialOf(bs[i].data.value) != material
    decreases |bs|
  {
    if bs != [] {
      FirstMatchNone(bs[1..], material);
      assert forall i :: 1 <= i < |bs| ==> bs[i] == bs[1..][i - 1];
    }
  }

  /** A block found is the first of the list with the material. */
  lemma {:induction false} FirstMatchIsFirst(bs: seq<SchematicBlock>, material: string)
    requires FirstMatch(bs, material).Ok? && FirstMatch(bs, material).value.Some?
    ensures exists k ::
      0 <= k < |bs| && bs[k] == FirstMatch(bs, material).value.value &&
      forall j :: 0 <= j < k ==> bs[j].data.Some? && MaterialOf(bs[j].data.value) != material
    decreases |bs|
  {
    var b := FirstMatch(bs, material).value.value;
    if bs[0].data.Some? && MaterialOf(bs[0].data.value) == material {
      assert bs[0] == b;
    } else {
      FirstMatchIsFirst(bs[1..], material);
      var k :| 0 <= k < |bs[1..]| && bs[1..][k] == b &&
        forall j :: 0 <= j < k ==> bs[1..][j].data.Some? && MaterialOf(bs[1..][j].data.value) != material;
      assert bs[k + 1] == b;
      forall j | 0 <= j < k + 1 ensures bs[j].data.Some? && MaterialOf(bs[j].data.value) != material {
        if j > 0 {
          assert bs[j] == bs[1..][j - 1];
        }
      }
    }
  }

  /** findFromMaterial: read, then search the block list; a null list fails. */
  function FindSpec(s: SchematicState, files: map<string, seq<string>>, material: string): (r: (SchematicState, Option<SchematicBlock>, Option<JavaException>))
    ensures r.0 == ReadSpec(s, files).0
    ensures r.1.Some? ==> r.2.None? && r.0.blocks.Some? && r.1.value in r.0.blocks.value
  {
    var (s1, thrown) := ReadSpec(s, files);
    if thrown.Some? then (s1, None, thrown)
    else if s1.blocks.None? then (s1, None, Some(NullPointer))
    else
      match FirstMatch(s1.blocks.value, material)
      case Err(e) => (s1, None, Some(e))
      case Ok(found) => (s1, found, None)
  }

  // ---------------------------------------------------------------- file names

  /** The file rule: a name gets the .witp suffix unless it already ends with it. */
  function WithExtension(name: string): (r: string)
    ensures EndsWith(r, EXTENSION)
    ensures |r| >= |name| && r[..|name|] == name
    ensures !EndsWith(name, EXTENSION) ==> r == name + EXTENSION
  {
    if EndsWith(name, EXTENSION) then name else name + EXTENSION
  }

  /** Applying the rule twice is applying it once; a name already carrying the suffix is left alone. */
  lemma WithExtensionIdempotent(name: string)
    ensures WithExtension(WithExtension(name)) == WithExtension(name)
    ensures EndsWith(name, EXTENSION) ==> WithExtension(name) == name
  {
  }

  // ---------------------------------------------------------------- helpers for the loops

  lemma DataSetSnoc(bs: seq<SchematicBlock>, b: SchematicBlock)
    requires b.data.Some?
    ensures DataSet(bs + [b]) == DataSet(bs) + {b.data.value}
  {
    var cs := bs + [b];
    assert cs[|bs|] == b;
    forall x | x in DataSet(cs) ensures x in DataSet(bs) + {b.data.value} {
      var i :| 0 <= i < |cs| && cs[i].data.Some? && cs[i].data.value == x;
      if i < |bs| {
        assert bs[i] == cs[i];
      }
    }
    forall x | x in DataSet(bs) ensures x in DataSet(cs) {
      var i :| 0 <= i < |bs| && bs[i].data.Some? && bs[i].data.value == x;
      assert cs[i] == bs[i];
    }
  }

  lemma DataInPalette(order: seq<BlockData>, bs: seq<SchematicBlock>)
    requires forall i :: 0 <= i < |bs| ==> bs[i].data.Some?
    requires IsEnumeration(order, DataSet(bs))
    ensures forall i :: 0 <= i < |bs| ==> bs[i].data.value in IndexMap(order)
  {
    forall i | 0 <= i < |bs| ensures bs[i].data.value in IndexMap(order) {
      assert bs[i].data.value in DataSet(bs);
    }
  }

  lemma IndexMapSnoc(order: seq<BlockData>, data: BlockData)
    requires Distinct(order) && data !in order
    ensures Distinct(order + [data])
    ensures IndexMap(order + [data]) == IndexMap(order)[data := |order|]
  {
    var o := order + [data];
    assert o[|order|] == data;
    assert forall i :: 0 <= i < |order| ==> o[i] == order[i];
  }

  lemma PaletteLinesSnoc(order: seq<BlockData>, data: BlockData)
    ensures PaletteLines(order + [data]) == PaletteLines(order) + [PaletteLine(|order|, data)]
  {
    var o := order + [data];
    assert forall i :: 0 <= i < |order| ==> o[i] == order[i];
  }

  lemma BlockTokensSnoc(bs: seq<SchematicBlock>, k: nat, palette: map<BlockData, nat>)
    requires k < |bs| && AllComplete(bs[..k + 1])
    requires forall i :: 0 <= i < k + 1 ==> bs[i].data.value in palette
    ensures AllComplete(bs[..k]) && forall i :: 0 <= i < k ==> bs[..k][i].data.value in palette
    ensures BlockTokens(bs[..k + 1], palette) ==
      BlockTokens(bs[..k], palette) + [BlockToken(palette[bs[k].data.value], bs[k].offset.value)]
  {
    assert forall i :: 0 <= i < k ==> bs[..k][i] == bs[..k + 1][i];
  }

  // ---------------------------------------------------------------- the schematic

  /** A schematic object: the fields the methods below read and update in place. */
  class Schematic {
    var read: bool
    var dimensions: Option<Dimensions>
    var blocks: Option<seq<SchematicBlock>>
    var file: Option<string>

    function State(): SchematicState
      reads this
    {
      SchematicState(read, dimensions, blocks, file)
    }

    /** new Schematic(pos1, pos2): the box of the two corners, no blocks yet, no file. */
    constructor Corners(pos1: Vec, pos2: Vec)
      ensures State() == SchematicState(false, Some(FromCorners(pos1, pos2)), Some([]), None)
    {
      read := false;
      dimensions := Some(FromCorners(pos1, pos2));
      blocks := Some([]);
      file := None;
    }

    /** new Schematic(): every field null and the flag down, to be given a file and read. */
    constructor Empty()
      ensures State() == SchematicState(false, None, None, None)
    {
      read := false;
      dimensions := None;
      blocks := None;
      file := None;
    }

    /** file(fileName): the schematic is backed by the named file, with the suffix added when missing. */
    method File(fileName: string)
      modifies this
      ensures State() == old(State()).(file := Some(WithExtension(fileName)))
    {
      file := Some(WithExtension(fileName));
    }

    /**
     * save: with a null box or block list, nothing happens. Otherwise the
     * blocks of the box (all, or all but air with SKIP_AIR) are appended to
     * the list; a null file then fails. The file is created empty and, when
     * every block has data and an offset, gets the size line, "*", the
     * palette in some iteration order of the distinct data strings, "~" and
     * the block line; a null data or offset fails before anything reaches
     * the file.
     */
    method Save(skipAir: bool, world: World, positions: seq<Vec>, disk: Disk) returns (thrown: Option<JavaException>, ghost order: seq<BlockData>)
      modifies this, disk
      ensures old(dimensions).None? || old(blocks).None? ==>
        State() == old(State()) && disk.files == old(disk.files) && thrown.None?
      ensures old(dimensions).Some? && old(blocks).Some? ==>
        var d := old(dimensions).value;
        var bs := old(blocks).value + ScanBlocks(world.blocks, positions, d.min, skipAir);
        State() == old(State()).(blocks := Some(bs)) &&
        (old(file).None? ==> thrown == Some(NullPointer) && disk.files == old(disk.files)) &&
        (old(file).Some? && !AllComplete(bs) ==>
          thrown == Some(NullPointer) && disk.files == old(disk.files)[old(file).value := []]) &&
        (old(file).Some? && AllComplete(bs) ==>
          thrown.None? && IsEnumeration(order, DataSet(bs)) &&
          disk.files == old(disk.files)[old(file).value := StoredLines(SaveLines(d, order, bs))])
    {
      order := [];
      if dimensions.None? || blocks.None? {
        return None, order;
      }
      var d := dimensions.value;
      ScanBox(world, positions, d.min, skipAir);
      if file.None? {
        return Some(NullPointer), order;
      }
      var f := file.value;
      var bs := blocks.value;
      // createNewFile and the FileWriter leave the file empty; the lines
      // written reach it when the writer is flushed at the end.
      var filtered := CollectData(bs);
      if filtered.None? {
        disk.files := disk.files[f := []];
        return Some(NullPointer), order;
      }
      var palette, paletteLines;
      palette, paletteLines, order := NumberPalette(filtered.value);
      DataInPalette(order, bs);
      var blockLine := JoinTokens(bs, palette);
      if blockLine.None? {
        disk.files := disk.files[f := []];
        return Some(NullPointer), order;
      }
      var lines := [SizeLine(d), "*"] + paletteLines + ["~", blockLine.value];
      assert lines == SaveLines(d, order, bs);
      disk.files := disk.files[f := StoredLines(lines)];
      thrown := None;
    }

    /**
     * read: nothing once the flag is set; a null file fails; a file that
     * cannot be opened is reported and left alone. Otherwise the flag goes up,
     * the palette is scanned, the last line is parsed into the new block list
     * and the first line into the size of a box anchored at the origin; an
     * exception on the way leaves the later fields as they were.
     */
    method Read(disk: Disk) returns (thrown: Option<JavaException>)
      modifies this
      ensures (State(), thrown) == ReadSpec(old(State()), disk.files)
    {
      if read {
        return None;
      }
      if file.None? {
        return Some(NullPointer);
      }
      if file.value !in disk.files {
        return None;
      }
      read := true;
      var lines := disk.files[file.value];
      var palette := ScanPalette(lines);
      if palette.Err? {
        return Some(palette.error);
      }
      if |lines| == 0 {
        return Some(IndexOutOfBounds);
      }
      var parsed := ParseBlockLine(lines[|lines| - 1], palette.value);
      if parsed.Err? {
        return Some(parsed.error);
      }
      blocks := Some(parsed.value);
      var size := ParseVector(lines[0]);
      if size.None? {
        return Some(NumberFormat);
      }
      dimensions := Some(FromSize(size.value));
      return None;
    }

    /**
     * paste: read first, then move the box to the anchor keeping its size,
     * then write every block at the anchor plus its rotated offset, in list
     * order; the affected positions are returned.
     */
    method Paste(at: Vec, angle: RotationAngle, world: World, disk: Disk) returns (affected: seq<Vec>, thrown: Option<JavaException>)
      modifies this, world
      ensures (State(), world.blocks, affected, thrown) == PasteSpec(old(State()), disk.files, at, angle, old(world.blocks))
    {
      thrown := Read(disk);
      if thrown.Some? {
        return [], thrown;
      }
      if dimensions.None? {
        return [], Some(NullPointer);
      }
      dimensions := Some(FromCorners(at, at.Add(dimensions.value.Size())));
      if blocks.None? {
        return [], Some(NullPointer);
      }
      affected, thrown := PasteBlocks(world, blocks.value, dimensions.value.min, angle);
    }

    /** findFromMaterial: read, then the first block of the list with the material. */
    method FindFromMaterial(material: string, disk: Disk) returns (found: Option<SchematicBlock>, thrown: Option<JavaException>)
      modifies this
      ensures (State(), found, thrown) == FindSpec(old(State()), disk.files, material)
    {
      thrown := Read(disk);
      if thrown.Some? {
        return None, thrown;
      }
      if blocks.None? {
        return None, Some(NullPointer);
      }
      var bs := blocks.value;
      ghost var after := State();
      for i := 0 to |bs|
        invariant State() == after
        invariant FirstMatch(bs, material) == FirstMatch(bs[i..], material)
      {
        SuffixStep(bs, i, []);
        if bs[i].data.None? {
          return None, Some(NullPointer);
        }
        if MaterialOf(bs[i].data.value) == material {
          return Some(bs[i]), None;
        }
      }
      assert bs[|bs|..] == [];
      return None, None;
    }

    /** getDimensions: read, then the box. */
    method GetDimensions(disk: Disk) returns (d: Option<Dimensions>, thrown: Option<JavaException>)
      modifies this
      ensures (State(), thrown) == ReadSpec(old(State()), disk.files)
      ensures d == if thrown.None? then dimensions else None
    {
      thrown := Read(disk);
      d := if thrown.None? then dimensions else None;
    }

    /** The scan loop of save: the blocks of the visited positions are appended to the list. */
    method ScanBox(world: World, positions: seq<Vec>, min: Vec, skipAir: bool)
      requires blocks.Some?
      modifies this
      ensures State() == old(State()).(blocks := Some(old(blocks).value + ScanBlocks(world.blocks, positions, min, skipAir)))
    {
      ghost var start := blocks.value;
      assert positions[..0] == [];
      assert start + [] == start;
      for i := 0 to |positions|
        invariant blocks == Some(start + ScanBlocks(world.blocks, positions[..i], min, skipAir))
        invariant read == old(read) && dimensions == old(dimensions) && file == old(file)
      {
        ghost var before := ScanBlocks(world.blocks, positions[..i], min, skipAir);
        ScanBlocksStep(world.blocks, positions, i, min, skipAir);
        ghost var step := if Kept(world.blocks, positions[i], skipAir) then [BlockOf(world.blocks, positions[i], min)] else [];
        ScanPosition(world, positions[i], min, skipAir);
        AppendAssoc(start, before, step);
      }
      assert positions[..|positions|] == positions;
    }

    /** One step of the scan loop: the block at p is appended unless SKIP_AIR is set and p holds air. */
    method ScanPosition(world: World, p: Vec, min: Vec, skipAir: bool)
      requires blocks.Some?
      modifies this
      ensures blocks == Some(old(blocks).value + if Kept(world.blocks, p, skipAir) then [BlockOf(world.blocks, p, min)] else [])
      ensures read == old(read) && dimensions == old(dimensions) && file == old(file)
    {
      if !(skipAir && IsAir(world.BlockAt(p))) {
        blocks := Some(blocks.value + [SchematicBlock(Some(world.BlockAt(p)), Some(p.Sub(min)))]);
      } else {
        assert blocks.value + [] == blocks.value;
      }
    }
  }

  /**
   * The HashSet save fills with the data of every block; the first block
   * with null data fails.
   */
  method CollectData(bs: seq<SchematicBlock>) returns (filtered: Option<set<BlockData>>)
    ensures filtered.Some? <==> forall i :: 0 <= i < |bs| ==> bs[i].data.Some?
    ensures filtered.Some? ==> filtered.value == DataSet(bs)
  {
    var seen: set<BlockData> := {};
    for i := 0 to |bs|
      invariant forall j :: 0 <= j < i ==> bs[j].data.Some?
      invariant seen == DataSet(bs[..i])
    {
      if bs[i].data.None? {
        return None;
      }
      assert bs[..i + 1] == bs[..i] + [bs[i]];
      DataSetSnoc(bs[..i], bs[i]);
      seen := seen + {bs[i].data.value};
    }
    assert bs[..|bs|] == bs;
    return Some(seen);
  }

  /**
   * The palette loop of save: the strings are numbered 0, 1, ... in the
   * order the set hands them out, each with its "id>data" line.
   */
  method NumberPalette(filtered: set<BlockData>) returns (palette: map<BlockData, nat>, lines: seq<string>, ghost order: seq<BlockData>)
    ensures IsEnumeration(order, filtered)
    ensures palette == IndexMap(order) && lines == PaletteLines(order)
    ensures palette.Keys == filtered && |lines| == |filtered|
    ensures forall d :: d in palette ==> palette[d] < |lines| && lines[palette[d]] == PaletteLine(palette[d], d)
  {
    palette := map[];
    lines := [];
    order := [];
    var index := 0;
    var remaining := filtered;
    while remaining != {}
      invariant index == |order| && Distinct(order)
      invariant |remaining| + index == |filtered|
      invariant forall x :: x in filtered <==> x in remaining || x in order
      invariant forall x :: x in remaining ==> x !in order
      invariant palette == IndexMap(order)
      invariant lines == PaletteLines(order)
      decreases |remaining|
    {
      var data :| data in remaining;
      IndexMapSnoc(order, data);
      PaletteLinesSnoc(order, data);
      palette := palette[data := index];
      lines := lines + [PaletteLine(index, data)];
      order := order + [data];
      remaining := remaining - {data};
      index := index + 1;
    }
  }

  /**
   * The joiner loop of save: one "id(x,y,z)" token per block, in list order,
   * joined by "/"; the first block with a null offset fails.
   */
  method JoinTokens(bs: seq<SchematicBlock>, palette: map<BlockData, nat>) returns (line: Option<string>)
    requires forall i :: 0 <= i < |bs| ==> bs[i].data.Some? && bs[i].data.value in palette
    ensures line.Some? <==> AllComplete(bs)
    ensures line.Some? ==> line.value == Join(BlockTokens(bs, palette), '/')
  {
    var tokens: seq<string> := [];
    assert bs[..0] == [];
    for i := 0 to |bs|
      invariant AllComplete(bs[..i]) && tokens == BlockTokens(bs[..i], palette)
    {
      if bs[i].offset.None? {
        assert !Complete(bs[i]);
        return None;
      }
      BlockTokensSnoc(bs, i, palette);
      tokens := tokens + [BlockToken(palette[bs[i].data.value], bs[i].offset.value)];
    }
    assert bs[..|bs|] == bs;
    return Some(Join(tokens, '/'));
  }

  /**
   * The palette loop of read: from the first line, a "*" line starts the
   * palette, a "~" line ends the loop, and an entry line is split and stored.
   */
  method ScanPalette(lines: seq<string>) returns (r: Result<map<int, BlockData>, JavaException>)
    ensures r == PaletteScan(lines, false, map[])
  {
    var palette: map<int, BlockData> := map[];
    var reading := false;
    var i := 0;
    while i < |lines|
      invariant 0 <= i <= |lines|
      invariant PaletteScan(lines, false, map[]) == PaletteScan(lines[i..], reading, palette)
    {
      var line := lines[i];
      SuffixStep(lines, i, []);
      if '*' in line {
        reading := true;
      } else if '~' in line {
        return Ok(palette);
      } else if reading {
        var entry := ParsePaletteLine(line);
        if entry.Err? {
          return Err(entry.error);
        }
        palette := palette[entry.value.0 := entry.value.1];
      }
      i := i + 1;
    }
    assert lines[i..] == [];
    return Ok(palette);
  }

  /**
   * The block loop of read: the tokens of the last line, parsed in order; the
   * first failure ends it. The last line is split whatever it holds, so an
   * empty line or the '~' marker is read as one token.
   */
  method ParseBlockLine(line: string, palette: map<int, BlockData>) returns (r: Result<seq<SchematicBlock>, JavaException>)
    ensures r == ParseTokens(PayloadTokens(line, false), palette)
  {
    var tokens := JavaSplit(line, '/');
    var bs: seq<SchematicBlock> := [];
    assert tokens[0..] == tokens;
    PrependNothing(ParseTokens(tokens, palette));
    for j := 0 to |tokens|
      invariant ParseTokens(tokens, palette) == Prepend(bs, ParseTokens(tokens[j..], palette))
    {
      SuffixStep(tokens, j, []);
      var b := ParseToken(tokens[j], palette);
      if b.Err? {
        return Err(b.error);
      }
      PrependTwice(bs, b.value, ParseTokens(tokens[j + 1..], palette));
      bs := bs + [b.value];
    }
    assert tokens[|tokens|..] == [];
    assert bs + [] == bs;
    return Ok(bs);
  }

  lemma PrependNothing(r: Result<seq<SchematicBlock>, JavaException>)
    ensures Prepend([], r) == r
  {
    if r.Ok? {
      assert [] + r.value == r.value;
    }
  }

  lemma PrependTwice(bs: seq<SchematicBlock>, b: SchematicBlock, r: Result<seq<SchematicBlock>, JavaException>)
    ensures Prepend(bs, Prepend([b], r)) == Prepend(bs + [b], r)
  {
    if r.Ok? {
      assert bs + ([b] + r.value) == (bs + [b]) + r.value;
    }
  }

  /** The positions of a sequence of writes. */
  function Targets(writes: seq<(Vec, BlockData)>): (ps: seq<Vec>)
    ensures |ps| == |writes| && forall i :: 0 <= i < |writes| ==> ps[i] == writes[i].0
  {
    seq(|writes|, i requires 0 <= i < |writes| => writes[i].0)
  }

  lemma TargetsSnoc(writes: seq<(Vec, BlockData)>, w: (Vec, BlockData))
    ensures Targets(writes + [w]) == Targets(writes) + [w.0]
  {
  }

  lemma PasteWritesSnoc(bs: seq<SchematicBlock>, i: nat, min: Vec, angle: RotationAngle)
    requires i < |bs| && Complete(bs[i]) && PasteWrites(bs[..i], min, angle).1.None?
    ensures PasteWrites(bs[..i + 1], min, angle) ==
      (PasteWrites(bs[..i], min, angle).0 + [(PastePosition(min, bs[i].offset.value, angle), bs[i].data.value)], None)
  {
    assert bs[..i + 1][..i] == bs[..i];
  }

  lemma StampSnoc(w: map<Vec, BlockData>, writes: seq<(Vec, BlockData)>, x: (Vec, BlockData))
    ensures Stamp(w, writes + [x]) == Stamp(w, writes)[x.0 := x.1]
  {
    assert (writes + [x])[..|writes|] == writes;
  }

  /** The paste loop stops at the first block with a null offset or data. */
  lemma PasteStopsAt(bs: seq<SchematicBlock>, i: nat, min: Vec, angle: RotationAngle)
    requires i < |bs| && !Complete(bs[i]) && PasteWrites(bs[..i], min, angle).1.None?
    ensures PasteWrites(bs, min, angle) == (PasteWrites(bs[..i], min, angle).0, Some(NullPointer))
    decreases |bs| - i
  {
    if i < |bs| - 1 {
      PasteStopsAt(bs[..|bs| - 1], i, min, angle);
      assert bs[..|bs| - 1][..i] == bs[..i];
    } else {
      assert bs[..|bs| - 1] == bs[..i];
    }
  }

  /**
   * The block loop of paste: each block is written at the minimum corner
   * plus its rotated offset, in list order, until one with a null offset or
   * data fails; the written positions are returned when none failed.
   */
  method PasteBlocks(world: World, bs: seq<SchematicBlock>, min: Vec, angle: RotationAngle) returns (affected: seq<Vec>, thrown: Option<JavaException>)
    modifies world
    ensures thrown == PasteWrites(bs, min, angle).1
    ensures world.blocks == Stamp(old(world.blocks), PasteWrites(bs, min, angle).0)
    ensures affected == if thrown.None? then Targets(PasteWrites(bs, min, angle).0) else []
  {
    affected := [];
    assert bs[..0] == [];
    for i := 0 to |bs|
      invariant PasteWrites(bs[..i], min, angle).1.None?
      invariant world.blocks == Stamp(old(world.blocks), PasteWrites(bs[..i], min, angle).0)
      invariant affected == Targets(PasteWrites(bs[..i], min, angle).0)
    {
      var b := bs[i];
      ghost var writes := PasteWrites(bs[..i], min, angle).0;
      if b.offset.None? || b.data.None? {
        PasteStopsAt(bs, i, min, angle);
        return [], Some(NullPointer);
      }
      var pos := min.Add(Rotate(b.offset.value, angle));
      PasteWritesSnoc(bs, i, min, angle);
      StampSnoc(old(world.blocks), writes, (pos, b.data.value));
      TargetsSnoc(writes, (pos, b.data.value));
      world.SetBlockData(pos, b.data.value);
      affected := affected + [pos];
    }
    assert bs[..|bs|] == bs;
    return affected, None;
  }
}
