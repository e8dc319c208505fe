/**
 * The schematic cache: the parkour and spawn-island schematics of the
 * schematics folder, read once at load time and kept by file name.
 */
module Caching {
  import opened Wrappers
  import opened Strings
  import opened Schematics

  /** The listing filter: only parkour pieces and spawn islands are loaded. */
  predicate Considered(name: string) {
    HasSubstring(name, "parkour-") || HasSubstring(name, "spawn-island")
  }

  /** listFiles with the filter: the names of the folder that pass it, in listing order. */
  function FilterNames(listing: seq<string>): (r: seq<string>)
    ensures |r| <= |listing|
  {
    if listing == [] then []
    else (if Considered(listing[0]) then [listing[0]] else []) + FilterNames(listing[1..])
  }

  /** The filter keeps the listing's order: filtering two listings one after the other is filtering their concatenation. */
  lemma {:induction false} FilterNamesAppend(a: seq<string>, b: seq<string>)
    ensures FilterNames(a + b) == FilterNames(a) + FilterNames(b)
  {
    if a != [] {
      assert (a + b)[1..] == a[1..] + b;
      FilterNamesAppend(a[1..], b);
    } else {
      assert a + b == b;
    }
  }

  /** The filter keeps exactly the listed names that contain one of the two markers. */
  lemma {:induction false} FilterNamesMembers(listing: seq<string>)
    ensures forall n :: n in FilterNames(listing) <==> n in listing && Considered(n)
  {
    if listing != [] {
      FilterNamesMembers(listing[1..]);
    }
  }

  /** A schematic as new Schematic().file(name) leaves it: every field null but the file. */
  function Unread(name: string): SchematicState {
    SchematicState(false, None, None, Some(WithExtension(name)))
  }

  /** The state a read leaves a schematic in, and what it raised. */
  type Outcome = (SchematicState, Option<JavaException>)

  /** The state of the schematic loaded for a file name, and what its read raised. */
  function Loaded(files: map<string, seq<string>>): string -> Outcome {
    name => ReadSpec(Unread(name), files)
  }

  /**
   * The loading loop over the names, as the states the cache maps them to:
   * each name is read into a fresh schematic and kept when that schematic is
   * supported; an exception from read ends the loop, keeping what was
   * stored before it.
   */
  function LoadSpec(names: seq<string>, load: string -> Outcome, isSupported: SchematicState -> bool)
    : (r: (map<string, SchematicState>, Option<JavaException>))
    decreases |names|
  {
    if names == [] then (map[], None)
    else
      var prev := LoadSpec(names[..|names| - 1], load, isSupported);
      var name := names[|names| - 1];
      var (state, thrown) := load(name);
      if prev.1.Some? then prev
      else if thrown.Some? then (prev.0, thrown)
      else if isSupported(state) then (prev.0[name := state], None)
      else (prev.0, None)
  }

  /**
   * The cache holds only names of this load, each with the state its read
   * left; when no read failed it holds exactly the names whose schematic is
   * supported.
   */
  lemma {:induction false} LoadKeys(names: seq<string>, load: string -> Outcome, isSupported: SchematicState -> bool)
    ensures var (m, e) := LoadSpec(names, load, isSupported);
      (forall n :: n in m ==> n in names && m[n] == load(n).0 && isSupported(m[n])) &&
      (e.None? ==> forall n :: n in names && isSupported(load(n).0) ==> n in m)
    decreases |names|
  {
    if names != [] {
      var init := names[..|names| - 1];
      LoadKeys(init, load, isSupported);
      var (m, e) := LoadSpec(names, load, isSupported);
      forall n | n in m ensures n in names && m[n] == load(n).0 && isSupported(m[n]) {
        if n in LoadSpec(init, load, isSupported).0 {
          assert n in init;
        }
      }
      if e.None? {
        forall n | n in names && isSupported(load(n).0) ensures n in m {
          if n != names[|names| - 1] {
            assert n in init;
          }
        }
      }
    }
  }

  /** The cache never holds more entries than there were names, so the unsupported count is never negative. */
  lemma {:induction false} LoadSize(names: seq<string>, load: string -> Outcome, isSupported: SchematicState -> bool)
    ensures |LoadSpec(names, load, isSupported).0.Keys| <= |names|
    decreases |names|
  {
    if names != [] {
      var init := names[..|names| - 1];
      LoadSize(init, load, isSupported);
      var prev := LoadSpec(init, load, isSupported).0;
      var name := names[|names| - 1];
      assert prev[name := load(name).0].Keys <= prev.Keys + {name};
      assert |prev.Keys + {name}| <= |prev.Keys| + 1;
    }
  }

  /**
   * What a load from a listing leaves: only listed names that pass the
   * filter, each with a supported state read from its file; when no read
   * failed, every such name whose schematic is supported; and never more
   * entries than names passing the filter.
   */
  lemma LoadFromListing(listing: seq<string>, files: map<string, seq<string>>, isSupported: SchematicState -> bool)
    ensures var (m, e) := LoadSpec(FilterNames(listing), Loaded(files), isSupported);
      (forall n :: n in m ==> n in listing && Considered(n) && isSupported(m[n]) && m[n] == Loaded(files)(n).0) &&
      (e.None? ==> forall n :: n in listing && Considered(n) && isSupported(Loaded(files)(n).0) ==> n in m) &&
      |m.Keys| <= |FilterNames(listing)|
  {
    FilterNamesMembers(listing);
    LoadKeys(FilterNames(listing), Loaded(files), isSupported);
    LoadSize(FilterNames(listing), Loaded(files), isSupported);
  }

  /** The schematic cache: file names mapped to their loaded schematics. */
  class SchematicCache {
    var cache: map<string, SchematicState>

    constructor ()
      ensures cache == map[]
    {
      cache := map[];
    }

    /**
     * read: without schematic support nothing changes. Otherwise the cache is
     * cleared and refilled from the listed names that pass the filter (a
     * folder that cannot be listed fails), and the number of those names the
     * cache did not take is reported.
     */
    method Read(versionSupportsSchematics: bool, listing: Option<seq<string>>, disk: Disk, isSupported: SchematicState -> bool)
      returns (unsupported: Option<int>, thrown: Option<JavaException>)
      modifies this
      ensures !versionSupportsSchematics ==> cache == old(cache) && unsupported.None? && thrown.None?
      ensures versionSupportsSchematics && listing.None? ==>
        cache == map[] && unsupported.None? && thrown == Some(NullPointer)
      ensures versionSupportsSchematics && listing.Some? && thrown.None? ==>
        unsupported == Some(|FilterNames(listing.value)| - |cache.Keys|)
      ensures thrown.Some? ==> unsupported.None?
      ensures versionSupportsSchematics && listing.Some? ==>
        (cache, thrown) == LoadSpec(FilterNames(listing.value), Loaded(disk.files), isSupported)
    {
      if !versionSupportsSchematics {
        return None, None;
      }
      cache := map[];
      if listing.None? {
        return None, Some(NullPointer);
      }
      var names := FilterNames(listing.value);
      var loaded, t := LoadAll(names, disk, isSupported);
      cache, thrown := loaded, t;
      unsupported := if t.None? then Some(|names| - |loaded.Keys|) else None;
    }

    /** getSchematic: the schematic cached under the name, or null. */
    method GetSchematic(name: string) returns (r: Option<SchematicState>)
      ensures r.Some? <==> name in cache
      ensures r.Some? ==> r.value == cache[name]
    {
      r := if name in cache then Some(cache[name]) else None;
    }
  }

  /**
   * The loading loop: a fresh schematic per name, kept when supported; the
   * first exception from a read ends it.
   */
  method LoadAll(names: seq<string>, disk: Disk, isSupported: SchematicState -> bool)
    returns (cache: map<string, SchematicState>, thrown: Option<JavaException>)
    ensures (cache, thrown) == LoadSpec(names, Loaded(disk.files), isSupported)
  {
    cache := map[];
    assert names[..0] == [];
    for i := 0 to |names|
      invariant (cache, None) == LoadSpec(names[..i], Loaded(disk.files), isSupported)
    {
      LoadStep(names, i, Loaded(disk.files), isSupported);
      var schematic, t := Load(names[i], disk);
      if t.Some? {
        LoadStops(names, i + 1, Loaded(disk.files), isSupported);
        return cache, t;
      }
      if isSupported(schematic.State()) {
        cache := cache[names[i] := schematic.State()];
      }
    }
    assert names[..|names|] == names;
    thrown := None;
  }

  /** new Schematic().file(name) followed by read. */
  method Load(name: string, disk: Disk) returns (schematic: Schematic, thrown: Option<JavaException>)
    ensures fresh(schematic)
    ensures (schematic.State(), thrown) == Loaded(disk.files)(name)
  {
    schematic := new Schematic.Empty();
    schematic.File(name);
    thrown := schematic.Read(disk);
  }

  /** One more name: the loading loop's step. */
  lemma LoadStep(names: seq<string>, i: nat, load: string -> Outcome, isSupported: SchematicState -> bool)
    requires i < |names|
    ensures var prev := LoadSpec(names[..i], load, isSupported);
      LoadSpec(names[..i + 1], load, isSupported) ==
        if prev.1.Some? then prev
        else if load(names[i]).1.Some? then (prev.0, load(names[i]).1)
        else if isSupported(load(names[i]).0) then (prev.0[names[i] := load(names[i]).0], None)
        else (prev.0, None)
  {
    assert names[..i + 1][..i] == names[..i];
  }

  /** Once a read has failed, the later names change nothing. */
  lemma {:induction false} LoadStops(names: seq<string>, k: nat, load: string -> Outcome, isSupported: SchematicState -> bool)
    requires k <= |names| && LoadSpec(names[..k], load, isSupported).1.Some?
    ensures LoadSpec(names, load, isSupported) == LoadSpec(names[..k], load, isSupported)
    decreases |names|
  {
    if k < |names| {
      assert names[..|names| - 1][..k] == names[..k];
      LoadStops(names[..|names| - 1], k, load, isSupported);
    } else {
      assert names[..k] == names;
    }
  }
}
