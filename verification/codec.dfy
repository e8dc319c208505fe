/**
 * The .witp line format. Saving writes, in order: the size line "x,y,z",
 * a "*" line, one "id>data" palette line per distinct block-data string,
 * a "~" line, and one line of "id(x,y,z)" tokens joined by "/". Reading
 * scans the palette between the markers, then parses the last line.
 */
module Codec {
  import opened Wrappers
  import opened Strings
  import opened Geometry

  /** A block state in the world engine's canonical string form. */
  type BlockData = string

  /**
   * A stored block: its data and its offset from the minimum corner. Either
   * may be null after reading a file the parser does not fully understand.
   */
  datatype SchematicBlock = SchematicBlock(data: Option<BlockData>, offset: Option<Vec>)

  predicate Complete(b: SchematicBlock) {
    b.data.Some? && b.offset.Some?
  }

  predicate AllComplete(bs: seq<SchematicBlock>) {
    forall i :: 0 <= i < |bs| ==> Complete(bs[i])
  }

  /**
   * Data the format carries unchanged: non-empty (split drops an empty
   * trailing piece), without the '*' and '~' markers the palette scan tests
   * with contains, without the '>' that palette lines are split at, and
   * without line breaks, which the line reader would cut the line at.
   */
  predicate Storable(d: BlockData) {
    d != [] && '*' !in d && '~' !in d && '>' !in d && '\n' !in d && '\r' !in d
  }

  predicate AllStorable(bs: seq<SchematicBlock>) {
    forall i :: 0 <= i < |bs| ==> bs[i].data.Some? ==> Storable(bs[i].data.value)
  }

  /** The distinct block-data strings of a block list (the HashSet filtered). */
  function DataSet(bs: seq<SchematicBlock>): set<BlockData> {
    set i | 0 <= i < |bs| && bs[i].data.Some? :: bs[i].data.value
  }

  predicate Distinct<T(==)>(s: seq<T>) {
    forall i, j :: 0 <= i < j < |s| ==> s[i] != s[j]
  }

  /** order lists every element of s exactly once: one iteration order of the set. */
  predicate IsEnumeration(order: seq<BlockData>, s: set<BlockData>) {
    Distinct(order) && (forall d | d in order :: d in s) && (forall d | d in s :: d in order)
  }

  /** The palette save builds: each string numbered by its place in the iteration order. */
  function IndexMap(order: seq<BlockData>): (m: map<BlockData, nat>)
    requires Distinct(order)
    ensures forall d :: d in m <==> d in order
    ensures forall i :: 0 <= i < |order| ==> order[i] in m && m[order[i]] == i
    ensures forall d :: d in m ==> m[d] < |order| && order[m[d]] == d
  {
    map i | 0 <= i < |order| :: order[i] := i
  }

  /** The palette read builds back: id i stands for the i-th string. */
  function IdMap(order: seq<BlockData>, k: nat): (m: map<int, BlockData>)
    requires k <= |order|
    ensures forall i :: i in m <==> 0 <= i < k
  {
    map i | 0 <= i < k :: order[i]
  }

  // ---------------------------------------------------------------- writing

  /** The three components separated by commas. */
  function VecText(v: Vec): string {
    IntStr(v.x) + "," + IntStr(v.y) + "," + IntStr(v.z)
  }

  /** Util.toString of an offset: "(x,y,z)". */
  function VecToString(v: Vec): string {
    "(" + VecText(v) + ")"
  }

  /** The first line: the size of the bounding box. */
  function SizeLine(d: Dimensions): string {
    VecText(d.Size())
  }

  function PaletteLine(id: nat, data: BlockData): string {
    NatStr(id) + ">" + data
  }

  function BlockToken(id: nat, offset: Vec): string {
    NatStr(id) + VecToString(offset)
  }

  function PaletteLines(order: seq<BlockData>): seq<string> {
    seq(|order|, i requires 0 <= i < |order| => PaletteLine(i, order[i]))
  }

  function BlockTokens(bs: seq<SchematicBlock>, palette: map<BlockData, nat>): seq<string>
    requires AllComplete(bs)
    requires forall i :: 0 <= i < |bs| ==> bs[i].data.value in palette
  {
    seq(|bs|, i requires 0 <= i < |bs| => BlockToken(palette[bs[i].data.value], bs[i].offset.value))
  }

  /** Every block's data is in the palette built from an enumeration of the data set. */
  lemma PaletteCoversBlocks(order: seq<BlockData>, bs: seq<SchematicBlock>)
    requires AllComplete(bs) && IsEnumeration(order, DataSet(bs))
    ensures forall i :: 0 <= i < |bs| ==> bs[i].data.value in IndexMap(order)
  {
    forall i | 0 <= i < |bs| ensures bs[i].data.value in IndexMap(order) {
      assert bs[i].data.value in DataSet(bs);
    }
  }

  /** The lines save writes, for a palette iteration order. */
  function SaveLines(d: Dimensions, order: seq<BlockData>, bs: seq<SchematicBlock>): seq<string>
    requires AllComplete(bs) && IsEnumeration(order, DataSet(bs))
  {
    PaletteCoversBlocks(order, bs);
    [SizeLine(d), "*"] + PaletteLines(order) + ["~", Join(BlockTokens(bs, IndexMap(order)), '/')]
  }

  /**
   * The lines a line reader returns for what save writes: the writer puts a
   * separator after every line but the last, and a reader does not return an
   * empty last line, so an empty block line is not read back at all.
   */
  function StoredLines(written: seq<string>): (r: seq<string>)
    ensures |written| > 0 && written[|written| - 1] != [] ==> r == written
    ensures |written| > 0 && written[|written| - 1] == [] ==> r == written[..|written| - 1]
  {
    if |written| > 0 && written[|written| - 1] == [] then written[..|written| - 1] else written
  }

  // ---------------------------------------------------------------- reading

  /**
   * One palette line, split at '>' as read does: the id before the first '>'
   * is parsed with Integer.parseInt, and the second piece is the data.
   */
  function ParsePaletteLine(line: string): Result<(int, BlockData), JavaException> {
    var elements := JavaSplit(line, '>');
    if |elements| == 0 then Err(IndexOutOfBounds)
    else
      match ParseInt(elements[0])
      case None => Err(NumberFormat)
      case Some(id) => if |elements| < 2 then Err(IndexOutOfBounds) else Ok((id, elements[1]))
  }

  /**
   * The palette loop of read: a line holding '*' starts the palette, a line
   * holding '~' ends the scan, and while the palette is open every other line
   * is an entry; a later entry with the same id replaces an earlier one.
   */
  function PaletteScan(lines: seq<string>, reading: bool, palette: map<int, BlockData>): Result<map<int, BlockData>, JavaException>
    decreases |lines|
  {
    if lines == [] then Ok(palette)
    else if '*' in lines[0] then PaletteScan(lines[1..], true, palette)
    else if '~' in lines[0] then Ok(palette)
    else if !reading then PaletteScan(lines[1..], false, palette)
    else
      match ParsePaletteLine(lines[0])
      case Err(e) => Err(e)
      case Ok(entry) => PaletteScan(lines[1..], true, palette[entry.0 := entry.1])
  }

  /**
   * The id of a block token: the digits ^\d+ finds at its start, parsed with
   * Integer.parseInt, or 0 when the token does not start with a digit.
   */
  function TokenId(token: string): Result<int, JavaException> {
    var e := ReadDigits(token, 0, 0).1;
    if e == 0 then Ok(0)
    else
      match ParseInt(token[..e])
      case None => Err(NumberFormat)
      case Some(id) => Ok(id)
  }

  /**
   * The regular expression \(-?\d+,-?\d+,-?\d+\) matched at position i, with
   * the offset Util.parseVector reads from the match and the position after it.
   */
  function MatchVecAt(s: string, i: nat): (r: Option<(Vec, nat)>)
    requires i <= |s|
    ensures r.Some? ==> i < r.value.1 <= |s|
  {
    if i < |s| && s[i] == '(' then
      match MatchSigned(s, i + 1)
      case None => None
      case Some((x, e1)) =>
        if e1 < |s| && s[e1] == ',' then
          match MatchSigned(s, e1 + 1)
          case None => None
          case Some((y, e2)) =>
            if e2 < |s| && s[e2] == ',' then
              match MatchSigned(s, e2 + 1)
              case None => None
              case Some((z, e3)) =>
                if e3 < |s| && s[e3] == ')' then Some((Vec(x, y, z), e3 + 1)) else None
            else None
        else None
    else None
  }

  /** The match of the vector pattern that starts furthest right before position n. */
  function LastMatchBefore(s: string, n: nat): Option<Vec>
    requires n <= |s|
  {
    if n == 0 then None
    else
      match MatchVecAt(s, n - 1)
      case Some(m) => Some(m.0)
      case None => LastMatchBefore(s, n - 1)
  }

  /**
   * The offset read keeps: its find loop overwrites the vector with every
   * match, so the last one wins. A match only holds '(' at its start, so
   * matches never overlap and the last one found is the one starting
   * furthest right; none at all leaves the vector null.
   */
  function LastVecMatch(s: string): Option<Vec> {
    LastMatchBefore(s, |s|)
  }

  /** Util.parseVector: the components of "x,y,z" or "(x,y,z)", or failure. */
  function ParseVector(text: string): Option<Vec> {
    var t := if |text| > 0 && text[0] == '(' then text else "(" + text + ")";
    match MatchVecAt(t, 0)
    case Some(m) => if m.1 == |t| then Some(m.0) else None
    case None => None
  }

  /** HashMap.get: null for an id the palette lacks. */
  function Lookup(palette: map<int, BlockData>, id: int): Option<BlockData> {
    if id in palette then Some(palette[id]) else None
  }

  function ParseToken(token: string, palette: map<int, BlockData>): Result<SchematicBlock, JavaException> {
    match TokenId(token)
    case Err(e) => Err(e)
    case Ok(id) => Ok(SchematicBlock(Lookup(palette, id), LastVecMatch(token)))
  }

  function Prepend(prefix: seq<SchematicBlock>, r: Result<seq<SchematicBlock>, JavaException>): Result<seq<SchematicBlock>, JavaException> {
    match r
    case Ok(bs) => Ok(prefix + bs)
    case Err(e) => Err(e)
  }

  /** The block loop of read: one block per token, in order, stopping at the first exception. */
  function ParseTokens(tokens: seq<string>, palette: map<int, BlockData>): (r: Result<seq<SchematicBlock>, JavaException>)
    ensures r.Ok? ==> |r.value| == |tokens|
    decreases |tokens|
  {
    if tokens == [] then Ok([])
    else
      match ParseToken(tokens[0], palette)
      case Err(e) => Err(e)
      case Ok(b) => Prepend([b], ParseTokens(tokens[1..], palette))
  }

  /**
   * What read gets from a file's lines: the blocks and the size; or the
   * blocks alone when the size line fails to parse (read has already stored
   * them by then); or only the exception.
   */
  datatype ParseResult =
    | Parsed(blocks: seq<SchematicBlock>, size: Vec)
    | SizeFailed(blocks: seq<SchematicBlock>, error: JavaException)
    | Failed(error: JavaException)

  /**
   * The tokens of the block line. As written, the line is split at '/'; the
   * corrected reading also treats an empty line, or the '~' marker itself
   * (the last line read back when the block line was empty), as holding no
   * block.
   */
  function PayloadTokens(line: string, corrected: bool): seq<string> {
    if corrected && (line == [] || '~' in line) then [] else JavaSplit(line, '/')
  }

  function ParseLinesWith(lines: seq<string>, corrected: bool): ParseResult {
    match PaletteScan(lines, false, map[])
    case Err(e) => Failed(e)
    case Ok(palette) =>
      if |lines| == 0 then Failed(IndexOutOfBounds)
      else
        match ParseTokens(PayloadTokens(lines[|lines| - 1], corrected), palette)
        case Err(e) => Failed(e)
        case Ok(bs) =>
          match ParseVector(lines[0])
          case None => SizeFailed(bs, NumberFormat)
          case Some(size) => Parsed(bs, size)
  }

  /** The parse read performs, as written. */
  function ParseLines(lines: seq<string>): ParseResult {
    ParseLinesWith(lines, false)
  }

  /** The parse with the empty block line recognised. */
  function ParseLinesCorrected(lines: seq<string>): ParseResult {
    ParseLinesWith(lines, true)
  }
}
