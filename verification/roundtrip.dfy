/**
 * What reading the lines save writes gives back: the same blocks, in the
 * same order, and the saved size.
 */
module CodecRoundTrip {
  import opened Wrappers
  import opened Strings
  import opened Geometry
  import opened Codec

  /** The characters printed numbers and vectors are made of. */
  predicate NumberChar(c: char) {
    IsDigit(c) || c == '-' || c == ','
  }

  lemma IntStrChars(v: int)
    ensures forall i :: 0 <= i < |IntStr(v)| ==> NumberChar(IntStr(v)[i])
  {
    var n: nat := if v < 0 then -v else v;
    assert AllDigits(NatStr(n));
  }

  lemma VecTextChars(v: Vec)
    ensures forall i :: 0 <= i < |VecText(v)| ==> NumberChar(VecText(v)[i])
  {
    IntStrChars(v.x);
    IntStrChars(v.y);
    IntStrChars(v.z);
    var a, b, c := IntStr(v.x), IntStr(v.y), IntStr(v.z);
    var s := VecText(v);
    forall i | 0 <= i < |s| ensures NumberChar(s[i]) {
      if i < |a| {
        assert s[i] == a[i];
      } else if i == |a| {
      } else if i < |a| + 1 + |b| {
        assert s[i] == b[i - |a| - 1];
      } else if i == |a| + 1 + |b| {
      } else {
        assert s[i] == c[i - |a| - |b| - 2];
      }
    }
  }

  /** MatchVecAt succeeds when its three numbers and four punctuation marks are where the pattern wants them. */
  lemma MatchVecAtSteps(s: string, i: nat, v: Vec, e1: nat, e2: nat, e3: nat, e: nat)
    requires i < |s| && s[i] == '('
    requires MatchSigned(s, i + 1) == Some((v.x, e1)) && e1 < |s| && s[e1] == ','
    requires MatchSigned(s, e1 + 1) == Some((v.y, e2)) && e2 < |s| && s[e2] == ','
    requires MatchSigned(s, e2 + 1) == Some((v.z, e3)) && e3 < |s| && s[e3] == ')'
    requires e == e3 + 1
    ensures MatchVecAt(s, i) == Some((v, e))
  {
  }

  /** Where the parts of "(x,y,z)" sit. */
  lemma VecLayout(x: string, y: string, z: string)
    ensures var t := "(" + (x + "," + y + "," + z) + ")";
      var a := 1 + |x|;
      var b := a + 1 + |y|;
      var c := b + 1 + |z|;
      |t| == c + 1 && t[0] == '(' && t[a] == ',' && t[b] == ',' && t[c] == ')' &&
      OccursAt(t, x, 1) && OccursAt(t, y, a + 1) && OccursAt(t, z, b + 1)
  {
  }

  /** A string found inside a string found in s is found in s. */
  lemma OccursWithin(s: string, t: string, u: string, i: int, j: int)
    requires OccursAt(s, t, i) && OccursAt(t, u, j)
    ensures OccursAt(s, u, i + j)
  {
    forall k | 0 <= k < |u| ensures s[i + j + k] == u[k] {
      assert t[j + k] == u[k];
      assert s[i + (j + k)] == t[j + k];
    }
  }

  lemma OccursAtEnd(p: string, t: string)
    ensures OccursAt(p + t, t, |p|)
  {
  }

  lemma OccursAtStart(p: string, t: string)
    ensures OccursAt(p + t, p, 0)
  {
  }

  /** Where the parts of "(x,y,z)" printed at position i of s sit. */
  lemma VecWithin(s: string, i: int, x: string, y: string, z: string)
    requires OccursAt(s, "(" + (x + "," + y + "," + z) + ")", i)
    ensures var a := i + 1 + |x|;
      var b := a + 1 + |y|;
      var c := b + 1 + |z|;
      0 <= i && c < |s| &&
      s[i] == '(' && s[a] == ',' && s[b] == ',' && s[c] == ')' &&
      OccursAt(s, x, i + 1) && OccursAt(s, y, a + 1) && OccursAt(s, z, b + 1)
  {
    var t := "(" + (x + "," + y + "," + z) + ")";
    VecLayout(x, y, z);
    var a := 1 + |x|;
    var b := a + 1 + |y|;
    var c := b + 1 + |z|;
    assert s[i + 0] == t[0];
    assert s[i + a] == t[a];
    assert s[i + b] == t[b];
    assert s[i + c] == t[c];
    OccursWithin(s, t, x, i, 1);
    OccursWithin(s, t, y, i, a + 1);
    OccursWithin(s, t, z, i, b + 1);
  }

  /** The vector pattern matches a vector printed at position i of s. */
  lemma MatchVecLaidOut(s: string, i: nat, v: Vec, a: nat, b: nat, c: nat, e: nat)
    requires a == i + 1 + |IntStr(v.x)| && b == a + 1 + |IntStr(v.y)| && c == b + 1 + |IntStr(v.z)| && c < |s| && e == c + 1
    requires s[i] == '(' && s[a] == ',' && s[b] == ',' && s[c] == ')'
    requires OccursAt(s, IntStr(v.x), i + 1) && OccursAt(s, IntStr(v.y), a + 1) && OccursAt(s, IntStr(v.z), b + 1)
    ensures MatchVecAt(s, i) == Some((v, e))
  {
    assert MatchSigned(s, i + 1) == Some((v.x, a)) by {
      MatchSignedIn(s, i + 1, v.x, a);
    }
    assert MatchSigned(s, a + 1) == Some((v.y, b)) by {
      MatchSignedIn(s, a + 1, v.y, b);
    }
    assert MatchSigned(s, b + 1) == Some((v.z, c)) by {
      MatchSignedIn(s, b + 1, v.z, c);
    }
    MatchVecAtSteps(s, i, v, a, b, c, e);
  }

  /** The vector pattern matches a vector printed at position i of s and reads back that vector. */
  lemma MatchVecPrinted(s: string, i: nat, v: Vec)
    requires OccursAt(s, VecToString(v), i)
    ensures i + |VecToString(v)| <= |s|
    ensures MatchVecAt(s, i) == Some((v, i + |VecToString(v)|))
  {
    var x, y, z := IntStr(v.x), IntStr(v.y), IntStr(v.z);
    assert VecToString(v) == "(" + (x + "," + y + "," + z) + ")";
    VecWithin(s, i, x, y, z);
    var a := i + 1 + |x|;
    var b := a + 1 + |y|;
    var c := b + 1 + |z|;
    MatchVecLaidOut(s, i, v, a, b, c, i + |VecToString(v)|);
  }

  /** Util.parseVector reads the size line back as the saved size. */
  lemma ParseSizeLine(d: Dimensions)
    ensures ParseVector(SizeLine(d)) == Some(d.Size())
  {
    var text := SizeLine(d);
    var t := VecToString(d.Size());
    assert |text| > 0 && text[0] != '(' by {
      VecTextChars(d.Size());
      assert NumberChar(text[0]);
    }
    assert OccursAt("(" + text + ")", t, 0) by {
      OccursSelf(t);
      assert t == "(" + text + ")";
    }
    ParseVectorWrapped(text, d.Size());
  }

  lemma OccursSelf(t: string)
    ensures OccursAt(t, t, 0)
  {
  }

  /** Util.parseVector wraps text that does not start with '(' in parentheses and needs the pattern to match all of it. */
  lemma ParseVectorWrapped(text: string, v: Vec)
    requires |text| > 0 && text[0] != '('
    requires OccursAt("(" + text + ")", VecToString(v), 0) && |text| + 2 == |VecToString(v)|
    ensures ParseVector(text) == Some(v)
  {
    MatchVecPrinted("(" + text + ")", 0, v);
  }

  /** The size line holds neither marker the palette scan looks for. */
  lemma SizeLineHasNoMarker(d: Dimensions)
    ensures '*' !in SizeLine(d) && '~' !in SizeLine(d)
  {
    VecTextChars(d.Size());
  }

  /** A palette line holds neither marker, and splits back into its id and its data. */
  lemma ParsePaletteLineRoundTrip(id: nat, data: BlockData)
    requires id <= INT_MAX && Storable(data)
    ensures '*' !in PaletteLine(id, data) && '~' !in PaletteLine(id, data)
    ensures ParsePaletteLine(PaletteLine(id, data)) == Ok((id, data))
  {
    var digits := NatStr(id);
    assert AllDigits(digits);
    assert Join([digits, data], '>') == PaletteLine(id, data);
    SplitJoin([digits, data], '>');
    ParseIntIntStr(id);
  }

  /** Scanning the palette lines from the k-th on, then the "~" marker, completes the palette. */
  lemma {:induction false} PaletteScanLines(order: seq<BlockData>, k: nat, rest: seq<string>)
    requires k <= |order| <= INT_MAX + 1
    requires forall i :: 0 <= i < |order| ==> Storable(order[i])
    requires |rest| > 0 && '*' !in rest[0] && '~' in rest[0]
    ensures PaletteScan(PaletteLines(order)[k..] + rest, true, IdMap(order, k)) == Ok(IdMap(order, |order|))
    decreases |order| - k
  {
    var lines := PaletteLines(order)[k..] + rest;
    if k == |order| {
      assert lines == rest;
    } else {
      SuffixStep(PaletteLines(order), k, rest);
      ParsePaletteLineRoundTrip(k, order[k]);
      ScanEntry(lines, IdMap(order, k), k, order[k]);
      IdMapNext(order, k);
      PaletteScanLines(order, k + 1, rest);
    }
  }

  /** The palette scan takes a palette line, reading on with the entry added. */
  lemma ScanEntry(lines: seq<string>, palette: map<int, BlockData>, id: int, data: BlockData)
    requires |lines| > 0 && '*' !in lines[0] && '~' !in lines[0]
    requires ParsePaletteLine(lines[0]) == Ok((id, data))
    ensures PaletteScan(lines, true, palette) == PaletteScan(lines[1..], true, palette[id := data])
  {
  }

  lemma IdMapNext(order: seq<BlockData>, k: nat)
    requires k < |order|
    ensures IdMap(order, k)[k := order[k]] == IdMap(order, k + 1)
  {
  }

  /** A block token is made of digits, parentheses, minus signs and commas. */
  lemma BlockTokenChars(id: nat, off: Vec)
    ensures BlockToken(id, off) != [] && '/' !in BlockToken(id, off) && '~' !in BlockToken(id, off)
  {
    assert AllDigits(NatStr(id));
    VecTextChars(off);
  }

  /** The id and the offset of a block token are read back. */
  lemma ParseBlockToken(id: nat, off: Vec)
    requires id <= INT_MAX
    ensures TokenId(BlockToken(id, off)) == Ok(id)
    ensures LastVecMatch(BlockToken(id, off)) == Some(off)
  {
    var digits := NatStr(id);
    var t := VecToString(off);
    var tok := BlockToken(id, off);
    assert tok == digits + t;
    OccursAtStart(digits, t);
    OccursAtEnd(digits, t);
    assert t[0] == '(';
    assert tok[|digits| + 0] == t[0];
    TokenIdOf(tok, id);
    LastVecOf(tok, |digits|, off);
  }

  /** The id of a token that starts with the printed id followed by '('. */
  lemma TokenIdOf(tok: string, id: nat)
    requires id <= INT_MAX
    requires OccursAt(tok, NatStr(id), 0) && |NatStr(id)| < |tok| && tok[|NatStr(id)|] == '('
    ensures TokenId(tok) == Ok(id)
  {
    var digits := NatStr(id);
    assert tok[0 + 0] == digits[0];
    assert AllDigits(digits) && IsDigit(tok[0]);
    ReadDigitsOf(tok, 0, digits, 0);
    assert tok[..|digits|] == digits;
    ParseIntIntStr(id);
  }

  /** The offset of a token that ends with a printed vector. */
  lemma LastVecOf(tok: string, p: nat, off: Vec)
    requires OccursAt(tok, VecToString(off), p) && p + |VecToString(off)| == |tok|
    ensures LastVecMatch(tok) == Some(off)
  {
    var t := VecToString(off);
    MatchVecPrinted(tok, p, off);
    VecTextChars(off);
    forall j | p < j < |tok| ensures tok[j] != '(' {
      assert tok[p + (j - p)] == t[j - p];
      if j < |tok| - 1 {
        assert t[j - p] == VecText(off)[j - p - 1];
      }
    }
    LastMatchAt(tok, p, |tok|);
  }

  /** When no '(' follows the match at p, that match is the last one. */
  lemma {:induction false} LastMatchAt(s: string, p: nat, n: nat)
    requires p < n <= |s|
    requires MatchVecAt(s, p).Some?
    requires forall j :: p < j < n ==> s[j] != '('
    ensures LastMatchBefore(s, n) == Some(MatchVecAt(s, p).value.0)
    decreases n
  {
    if n - 1 > p {
      assert MatchVecAt(s, n - 1).None?;
      LastMatchAt(s, p, n - 1);
    }
  }

  /** The tokens from the k-th on parse back into the blocks from the k-th on. */
  lemma {:induction false} ParseTokensRoundTrip(order: seq<BlockData>, bs: seq<SchematicBlock>, tokens: seq<string>, k: nat)
    requires AllComplete(bs) && IsEnumeration(order, DataSet(bs)) && |order| <= INT_MAX + 1
    requires forall i :: 0 <= i < |bs| ==> bs[i].data.value in IndexMap(order)
    requires tokens == BlockTokens(bs, IndexMap(order))
    requires k <= |bs|
    ensures ParseTokens(tokens[k..], IdMap(order, |order|)) == Ok(bs[k..])
    decreases |bs| - k
  {
    if k < |bs| {
      var ids := IdMap(order, |order|);
      assert ParseToken(tokens[k], ids) == Ok(bs[k]) by {
        var b := bs[k];
        var id := IndexMap(order)[b.data.value];
        assert tokens[k] == BlockToken(id, b.offset.value);
        ParseBlockToken(id, b.offset.value);
        assert Lookup(ids, id) == Some(b.data.value);
      }
      ParseTokensRoundTrip(order, bs, tokens, k + 1);
      SuffixStep(tokens, k, []);
      ParseTokensCons(tokens[k..], ids, bs[k], bs[k + 1..]);
      SuffixStep(bs, k, []);
    } else {
      assert tokens[k..] == [] && bs[k..] == [];
    }
  }

  /**
   * The first element of a suffix, and what remains after it, also when
   * more elements follow the suffix; a suffix is its first element followed
   * by the rest.
   */
  lemma SuffixStep<T>(a: seq<T>, k: nat, more: seq<T>)
    requires k < |a|
    ensures |a[k..]| > 0 && a[k..][0] == a[k] && a[k..][1..] == a[k + 1..]
    ensures (a[k..] + more)[0] == a[k] && (a[k..] + more)[1..] == a[k + 1..] + more
    ensures [a[k]] + a[k + 1..] == a[k..]
  {
  }

  /** Concatenation is associative. */
  lemma AppendAssoc<T>(a: seq<T>, b: seq<T>, c: seq<T>)
    ensures a + b + c == a + (b + c)
  {
  }

  /** The block loop parses the first token, then the rest. */
  lemma ParseTokensCons(tokens: seq<string>, palette: map<int, BlockData>, b: SchematicBlock, rest: seq<SchematicBlock>)
    requires |tokens| > 0 && ParseToken(tokens[0], palette) == Ok(b)
    requires ParseTokens(tokens[1..], palette) == Ok(rest)
    ensures ParseTokens(tokens, palette) == Ok([b] + rest)
  {
  }

  /** No block token is empty or holds '/' or '~'. */
  lemma BlockTokensClean(bs: seq<SchematicBlock>, palette: map<BlockData, nat>)
    requires AllComplete(bs)
    requires forall i :: 0 <= i < |bs| ==> bs[i].data.value in palette
    ensures var tokens := BlockTokens(bs, palette);
      forall i :: 0 <= i < |tokens| ==> tokens[i] != [] && '/' !in tokens[i] && '~' !in tokens[i]
  {
    var tokens := BlockTokens(bs, palette);
    forall i | 0 <= i < |tokens| ensures tokens[i] != [] && '/' !in tokens[i] && '~' !in tokens[i] {
      BlockTokenChars(palette[bs[i].data.value], bs[i].offset.value);
    }
  }

  /** The block line splits back into one token per block. */
  lemma SplitBlockLine(bs: seq<SchematicBlock>, palette: map<BlockData, nat>)
    requires |bs| > 0 && AllComplete(bs)
    requires forall i :: 0 <= i < |bs| ==> bs[i].data.value in palette
    ensures JavaSplit(Join(BlockTokens(bs, palette), '/'), '/') == BlockTokens(bs, palette)
  {
    BlockTokensClean(bs, palette);
    SplitJoin(BlockTokens(bs, palette), '/');
  }

  /** Every string of an enumeration of the data set is the data of some block, hence storable. */
  lemma EnumerationStorable(order: seq<BlockData>, bs: seq<SchematicBlock>)
    requires AllStorable(bs) && IsEnumeration(order, DataSet(bs))
    ensures forall i :: 0 <= i < |order| ==> Storable(order[i])
  {
    forall i | 0 <= i < |order| ensures Storable(order[i]) {
      assert order[i] in DataSet(bs);
      var j :| 0 <= j < |bs| && bs[j].data.Some? && bs[j].data.value == order[i];
    }
  }

  /** The scan passes over a first line without markers and starts the palette at the "*" line. */
  lemma ScanSkipsHeader(first: string, body: seq<string>)
    requires '*' !in first && '~' !in first
    ensures PaletteScan([first, "*"] + body, false, map[]) == PaletteScan(body, true, map[])
  {
    var lines := [first, "*"] + body;
    assert lines[0] == first && lines[1] == "*";
    assert lines[1..][1..] == body;
  }

  /** The palette part of the saved lines scans back into the palette id i -> i-th string. */
  lemma PaletteOfSavedLines(d: Dimensions, order: seq<BlockData>, bs: seq<SchematicBlock>)
    requires AllComplete(bs) && AllStorable(bs) && IsEnumeration(order, DataSet(bs))
    requires |order| <= INT_MAX + 1
    ensures PaletteScan(SaveLines(d, order, bs), false, map[]) == Ok(IdMap(order, |order|))
  {
    PaletteCoversBlocks(order, bs);
    var rest := ["~", Join(BlockTokens(bs, IndexMap(order)), '/')];
    var body := PaletteLines(order) + rest;
    assert SaveLines(d, order, bs) == [SizeLine(d), "*"] + body;
    SizeLineHasNoMarker(d);
    ScanSkipsHeader(SizeLine(d), body);
    assert PaletteLines(order)[0..] == PaletteLines(order);
    assert IdMap(order, 0) == map[];
    EnumerationStorable(order, bs);
    PaletteScanLines(order, 0, rest);
  }

  /** How the parse of a file assembles its result from the palette, the tokens and the size. */
  lemma ParseLinesOf(lines: seq<string>, corrected: bool, palette: map<int, BlockData>, tokens: seq<string>, bs: seq<SchematicBlock>, size: Vec)
    requires PaletteScan(lines, false, map[]) == Ok(palette)
    requires |lines| > 0 && PayloadTokens(lines[|lines| - 1], corrected) == tokens
    requires ParseTokens(tokens, palette) == Ok(bs)
    requires ParseVector(lines[0]) == Some(size)
    ensures ParseLinesWith(lines, corrected) == Parsed(bs, size)
  {
  }

  /** The last of the saved lines is the block line, and the first the size line. */
  lemma SavedLineEnds(d: Dimensions, order: seq<BlockData>, bs: seq<SchematicBlock>)
    requires AllComplete(bs) && IsEnumeration(order, DataSet(bs))
    requires forall i :: 0 <= i < |bs| ==> bs[i].data.value in IndexMap(order)
    ensures var lines := SaveLines(d, order, bs);
      |lines| > 0 && lines[0] == SizeLine(d) && lines[|lines| - 1] == Join(BlockTokens(bs, IndexMap(order)), '/')
  {
  }

  /** With at least one block saved, the block line is not empty, so every written line is read back. */
  lemma StoredSavedLines(d: Dimensions, order: seq<BlockData>, bs: seq<SchematicBlock>)
    requires |bs| > 0 && AllComplete(bs) && IsEnumeration(order, DataSet(bs))
    ensures StoredLines(SaveLines(d, order, bs)) == SaveLines(d, order, bs)
  {
    PaletteCoversBlocks(order, bs);
    var tokens := BlockTokens(bs, IndexMap(order));
    SavedLineEnds(d, order, bs);
    BlockTokensClean(bs, IndexMap(order));
    JoinStartsWithFirst(tokens, '/');
  }

  /**
   * The format round-trips: parsing the lines read back from what save
   * writes gives back the saved blocks, in order, and the saved size,
   * whatever order the palette was numbered in, provided at least one block
   * was saved.
   */
  lemma RoundTrip(d: Dimensions, order: seq<BlockData>, bs: seq<SchematicBlock>)
    requires |bs| > 0 && AllComplete(bs) && AllStorable(bs)
    requires IsEnumeration(order, DataSet(bs)) && |order| <= INT_MAX + 1
    ensures ParseLines(StoredLines(SaveLines(d, order, bs))) == Parsed(bs, d.Size())
  {
    PaletteCoversBlocks(order, bs);
    var tokens := BlockTokens(bs, IndexMap(order));
    StoredSavedLines(d, order, bs);
    PaletteOfSavedLines(d, order, bs);
    SavedLineEnds(d, order, bs);
    SplitBlockLine(bs, IndexMap(order));
    ParseTokensRoundTrip(order, bs, tokens, 0);
    ParseSizeLine(d);
    ParseLinesOf(SaveLines(d, order, bs), false, IdMap(order, |order|), tokens, bs, d.Size());
  }

  /** A token without digits or a vector reads as block id 0 at a null offset; with no id 0 in the palette the data is null too. */
  lemma PhantomToken(token: string, palette: map<int, BlockData>)
    requires (token == [] || !IsDigit(token[0])) && '(' !in token
    requires 0 !in palette
    ensures ParseTokens([token], palette) == Ok([SchematicBlock(None, None)])
  {
    assert TokenId(token) == Ok(0);
    assert LastVecMatch(token) == None by {
      NoVecMatch(token, |token|);
    }
    assert ParseToken(token, palette) == Ok(SchematicBlock(None, None));
    var tokens: seq<string> := [token];
    assert tokens[0] == token && tokens[1..] == [];
    assert ParseTokens(tokens[1..], palette) == Ok([]);
    var phantom := SchematicBlock(None, None);
    assert [phantom] + [] == [phantom];
    assert ParseTokens(tokens, palette) == Prepend([phantom], Ok([]));
  }

  /** Text without '(' holds no vector match. */
  lemma {:induction false} NoVecMatch(s: string, n: nat)
    requires n <= |s| && '(' !in s
    ensures LastMatchBefore(s, n) == None
  {
    if n > 0 {
      assert s[n - 1] != '(';
      NoVecMatch(s, n - 1);
    }
  }

  /** The lines read back after saving no block: the size line and the two markers. */
  lemma StoredEmptySave(d: Dimensions)
    ensures StoredLines(SaveLines(d, [], [])) == [SizeLine(d), "*", "~"]
  {
    PaletteCoversBlocks([], []);
    assert BlockTokens([], IndexMap([])) == [];
    assert PaletteLines([]) == [];
  }

  /**
   * With no block saved (a box of air saved with SKIP_AIR), the block line is
   * empty and is not read back; read takes the "~" marker for the block line
   * and makes one block of it, with null data and a null offset.
   */
  lemma EmptySaveReadsPhantomBlock(d: Dimensions)
    ensures ParseLines(StoredLines(SaveLines(d, [], []))) == Parsed([SchematicBlock(None, None)], d.Size())
  {
    var lines := [SizeLine(d), "*", "~"];
    StoredEmptySave(d);
    SizeLineHasNoMarker(d);
    ScanSkipsHeader(SizeLine(d), ["~"]);
    assert PaletteScan(lines, false, map[]) == Ok(map[]);
    assert JavaSplit("~", '/') == ["~"] by {
      SplitJoin(["~"], '/');
    }
    PhantomToken("~", map[]);
    ParseSizeLine(d);
    ParseLinesOf(lines, false, map[], ["~"], [SchematicBlock(None, None)], d.Size());
  }

  /** Corrected, the block line of a save with at least one block still yields its tokens. */
  lemma CorrectedTokens(tokens: seq<string>)
    requires |tokens| > 0
    requires forall i :: 0 <= i < |tokens| ==> tokens[i] != [] && '/' !in tokens[i] && '~' !in tokens[i]
    ensures PayloadTokens(Join(tokens, '/'), true) == tokens
  {
    JoinStartsWithFirst(tokens, '/');
    JoinAvoids(tokens, '/', '~');
    SplitJoin(tokens, '/');
  }

  /** With the "~" marker recognised as an empty block line, the format round-trips for every block list, empty included. */
  lemma RoundTripCorrected(d: Dimensions, order: seq<BlockData>, bs: seq<SchematicBlock>)
    requires AllComplete(bs) && AllStorable(bs)
    requires IsEnumeration(order, DataSet(bs)) && |order| <= INT_MAX + 1
    ensures ParseLinesCorrected(StoredLines(SaveLines(d, order, bs))) == Parsed(bs, d.Size())
  {
    if bs == [] {
      assert DataSet(bs) == {};
      var lines := [SizeLine(d), "*", "~"];
      StoredEmptySave(d);
      SizeLineHasNoMarker(d);
      ScanSkipsHeader(SizeLine(d), ["~"]);
      assert PaletteScan(lines, false, map[]) == Ok(map[]);
      ParseSizeLine(d);
      assert ParseTokens([], map[]) == Ok([]);
      ParseLinesOf(lines, true, map[], [], [], d.Size());
    } else {
      PaletteCoversBlocks(order, bs);
      var palette := IndexMap(order);
      var tokens := BlockTokens(bs, palette);
      StoredSavedLines(d, order, bs);
      PaletteOfSavedLines(d, order, bs);
      SavedLineEnds(d, order, bs);
      ParseSizeLine(d);
      BlockTokensClean(bs, palette);
      CorrectedTokens(tokens);
      ParseTokensRoundTrip(order, bs, tokens, 0);
      ParseLinesOf(SaveLines(d, order, bs), true, IdMap(order, |order|), tokens, bs, d.Size());
    }
  }

  /** A join holds a character only if a piece or the delimiter does. */
  lemma {:induction false} JoinAvoids(ts: seq<string>, c: char, x: char)
    requires x != c
    requires forall i :: 0 <= i < |ts| ==> x !in ts[i]
    ensures x !in Join(ts, c)
  {
    if |ts| > 1 {
      JoinAvoids(ts[1..], c, x);
    }
  }
}
