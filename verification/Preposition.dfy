/**
 Moving local files to where an incoming torrent expects them
 (daemon/daemon/sync/torrent_mgr.py:348-459): index by (basename, size), a move per layout entry,
 removal of stale tracked files, and two deepest-first passes over empty directories.
 */
module Preposition {
  import opened Wrappers
  import opened FileTree

  /** One (relative_path, size) of the torrent; `rel` is below the save path. */
  datatype Entry = Entry(rel: Path, size: nat)

  type Key = (string, nat)

  /** `dirSize` is what stat reports for a directory. */
  datatype Input = Input(local: Path, save: Path, layout: seq<Entry>, tracked: set<Path>, dirSize: Path -> nat)

  predicate Rooted(layout: seq<Entry>) {
    forall i :: 0 <= i < |layout| ==> layout[i].rel != []
  }

  predicate Proper(inp: Input) {
    inp.local != [] && inp.save == Parent(inp.local) && Rooted(inp.layout)
  }

  function Target(inp: Input, e: Entry): Path {
    inp.save + e.rel
  }

  function KeyOf(files: map<Path, string>, p: Path): Key
    requires p in files && p != []
  {
    (Name(p), |files[p]|)
  }

  function EntryKey(inp: Input, e: Entry): Key
    requires e.rel != []
  {
    (Name(Target(inp, e)), e.size)
  }

  // ----- the index -----------------------------------------------------------------------

  predicate AreFiles(files: map<Path, string>, ps: seq<Path>) {
    forall i :: 0 <= i < |ps| ==> ps[i] in files && ps[i] != []
  }

  predicate NonRoot(index: map<Key, Path>) {
    forall key :: key in index ==> index[key] != []
  }

  ghost predicate Lists(fs: Fs, local: Path, listing: seq<Path>) {
    forall p :: p in listing <==> p in fs.files && StrictlyUnder(p, local)
  }

  /** A later file in the listing replaces an earlier one with the same key. */
  function IndexOf(files: map<Path, string>, listing: seq<Path>): map<Key, Path>
    requires AreFiles(files, listing)
  {
    if listing == [] then map[] else
      var k := |listing| - 1;
      IndexOf(files, listing[..k])[KeyOf(files, listing[k]) := listing[k]]
  }

  lemma {:induction false} IndexFacts(files: map<Path, string>, listing: seq<Path>)
    requires AreFiles(files, listing)
    ensures var index := IndexOf(files, listing);
            && (forall key :: key in index ==> index[key] in listing && KeyOf(files, index[key]) == key)
            && (forall p :: p in listing ==> KeyOf(files, p) in index)
  {
    if listing != [] {
      var k := |listing| - 1;
      IndexFacts(files, listing[..k]);
      assert listing == listing[..k] + [listing[k]];
    }
  }

  /** Of the files with one name and size the last of the listing is found. */
  lemma {:induction false} LastListedWins(files: map<Path, string>, listing: seq<Path>, i: nat)
    requires AreFiles(files, listing) && i < |listing|
    requires forall j :: i < j < |listing| ==> KeyOf(files, listing[j]) != KeyOf(files, listing[i])
    ensures var key := KeyOf(files, listing[i]); key in IndexOf(files, listing) && IndexOf(files, listing)[key] == listing[i]
  {
    if i < |listing| - 1 {
      LastListedWins(files, listing[..|listing| - 1], i);
    }
  }

  // ----- the moves ---------------------------------------------------------------------------

  datatype Moves = Moves(fs: Fs, vacated: set<Path>, moved: bool)

  predicate InPlace(fs: Fs, inp: Input, t: Path, size: nat) {
    (t in fs.files && |fs.files[t]| == size) || (t in fs.dirs && inp.dirSize(t) == size)
  }

  function PlaceOne(inp: Input, index: map<Key, Path>, m: Moves, e: Entry): Moves
    requires e.rel != [] && NonRoot(index)
  {
    var t := Target(inp, e);
    var key := EntryKey(inp, e);
    if InPlace(m.fs, inp, t, e.size) || key !in index || !Exists(m.fs, index[key]) then m
    else if !CanMkdir(m.fs, Parent(t)) then m
    else
      var src := index[key];
      var made := Mkdir(m.fs, Parent(t));
      Moves(Rename(made, src, t), m.vacated + {Parent(src)}, m.moved || CanRename(made, src, t))
  }

  function PlaceAll(inp: Input, index: map<Key, Path>, m: Moves, layout: seq<Entry>): Moves
    requires NonRoot(index) && Rooted(layout)
  {
    if layout == [] then m else
      var k := |layout| - 1;
      PlaceOne(inp, index, PlaceAll(inp, index, m, layout[..k]), layout[k])
  }

  // ----- the whole function ---------------------------------------------------------------------

  /** Vacated directories and the directories above them, up to the share root. */
  function Climb(vacated: set<Path>, local: Path): set<Path> {
    set d, k | d in vacated && local <= d && |local| < k <= |d| :: d[..k]
  }

  function LayoutPaths(inp: Input): set<Path> {
    set i | 0 <= i < |inp.layout| :: Target(inp, inp.layout[i])
  }

  function Stale(inp: Input): set<Path> {
    inp.tracked - LayoutPaths(inp)
  }

  /** The orders in which the operating system and the sorts happen to list things. */
  datatype Choices = Choices(listing: seq<Path>, climbed: seq<Path>, leftover: seq<Path>)

  function Placed(fs: Fs, inp: Input, ch: Choices): Moves
    requires Proper(inp) && AreFiles(fs.files, ch.listing)
  {
    IndexFacts(fs.files, ch.listing);
    PlaceAll(inp, IndexOf(fs.files, ch.listing), Moves(fs, {}, false), inp.layout)
  }

  function Unlinked(fs: Fs, inp: Input, ch: Choices): Fs
    requires Proper(inp) && AreFiles(fs.files, ch.listing)
  {
    var swept := RmdirAll(Placed(fs, inp, ch).fs, ch.climbed);
    swept.(files := swept.files - Stale(inp))
  }

  function Final(fs: Fs, inp: Input, ch: Choices): Fs
    requires Proper(inp) && AreFiles(fs.files, ch.listing)
  {
    RmdirAll(Unlinked(fs, inp, ch), ch.leftover)
  }

  function Recheck(fs: Fs, inp: Input, ch: Choices): bool
    requires Proper(inp) && AreFiles(fs.files, ch.listing)
  {
    var m := Placed(fs, inp, ch);
    m.moved || m.fs.files.Keys * Stale(inp) != {}
  }

  ghost predicate Runs(fs: Fs, inp: Input, ch: Choices) {
    && Tree(fs) && Proper(inp) && Lists(fs, inp.local, ch.listing)
    && AreFiles(fs.files, ch.listing)
    && DeepestFirst(ch.climbed, Climb(Placed(fs, inp, ch).vacated, inp.local))
    && var cut := Unlinked(fs, inp, ch);
       DeepestFirst(ch.leftover, set d | d in cut.dirs && StrictlyUnder(d, inp.local))
  }

  // ----- every step keeps the tree and invents no content ----------------------------------------

  ghost predicate Sound(fs0: Fs, index: map<Key, Path>) {
    forall key :: key in index ==>
      index[key] in fs0.files && index[key] != [] && KeyOf(fs0.files, index[key]) == key
  }

  /** The only way `PlaceOne` changes the tree: a mkdir and a rename of the indexed file. */
  predicate Tries(inp: Input, index: map<Key, Path>, m: Moves, e: Entry)
    requires e.rel != []
  {
    && !InPlace(m.fs, inp, Target(inp, e), e.size)
    && EntryKey(inp, e) in index && Exists(m.fs, index[EntryKey(inp, e)])
    && CanMkdir(m.fs, Parent(Target(inp, e)))
  }

  lemma PlaceOneTree(inp: Input, index: map<Key, Path>, m: Moves, e: Entry)
    requires Tree(m.fs) && e.rel != [] && NonRoot(index)
    ensures Tree(PlaceOne(inp, index, m, e).fs)
    ensures Descends(m.fs, PlaceOne(inp, index, m, e).fs)
  {
    if Tries(inp, index, m, e) {
      var t, src := Target(inp, e), index[EntryKey(inp, e)];
      var made := Mkdir(m.fs, Parent(t));
      MkdirTree(m.fs, Parent(t));
      RenameTree(made, src, t);
      DescendsSubset(m.fs, made);
      RenameDescends(made, src, t);
      DescendsTransitive(m.fs, made, Rename(made, src, t));
    } else {
      DescendsSubset(m.fs, m.fs);
    }
  }

  lemma {:induction false} PlaceAllTree(inp: Input, index: map<Key, Path>, m: Moves, layout: seq<Entry>)
    requires Tree(m.fs) && NonRoot(index) && Rooted(layout)
    ensures Tree(PlaceAll(inp, index, m, layout).fs)
    ensures Descends(m.fs, PlaceAll(inp, index, m, layout).fs)
  {
    if layout == [] {
      DescendsSubset(m.fs, m.fs);
    } else {
      var k := |layout| - 1;
      PlaceAllTree(inp, index, m, layout[..k]);
      var mid := PlaceAll(inp, index, m, layout[..k]);
      PlaceOneTree(inp, index, mid, layout[k]);
      DescendsTransitive(m.fs, mid.fs, PlaceOne(inp, index, mid, layout[k]).fs);
    }
  }

  lemma {:induction false} PlaceAllUnmoved(inp: Input, index: map<Key, Path>, m: Moves, layout: seq<Entry>)
    requires NonRoot(index) && Rooted(layout) && !PlaceAll(inp, index, m, layout).moved
    ensures PlaceAll(inp, index, m, layout).fs.files == m.fs.files
  {
    if layout != [] {
      PlaceAllUnmoved(inp, index, m, layout[..|layout| - 1]);
    }
  }

  /** Removing files leaves a tree. */
  lemma WithoutFilesTree(fs: Fs, gone: set<Path>)
    requires Tree(fs)
    ensures Tree(fs.(files := fs.files - gone))
  {
  }

  lemma Stages(fs: Fs, inp: Input, ch: Choices)
    requires Runs(fs, inp, ch)
    ensures var m, cut, end := Placed(fs, inp, ch), Unlinked(fs, inp, ch), Final(fs, inp, ch);
            && Tree(m.fs) && Tree(cut) && Tree(end)
            && Descends(fs, m.fs)
            && cut.files == m.fs.files - Stale(inp) && end.files == cut.files
  {
    IndexFacts(fs.files, ch.listing);
    var m := Placed(fs, inp, ch);
    PlaceAllTree(inp, IndexOf(fs.files, ch.listing), Moves(fs, {}, false), inp.layout);
    RmdirAllTree(m.fs, ch.climbed);
    WithoutFilesTree(RmdirAll(m.fs, ch.climbed), Stale(inp));
    RmdirAllTree(Unlinked(fs, inp, ch), ch.leftover);
  }

  /** Main result, conservation: every final file is one of the initial ones, no two the same one. */
  lemma ContentsAreConserved(fs: Fs, inp: Input, ch: Choices)
    requires Runs(fs, inp, ch)
    ensures Tree(Final(fs, inp, ch)) && Descends(fs, Final(fs, inp, ch))
  {
    Stages(fs, inp, ch);
    DescendsSubset(Placed(fs, inp, ch).fs, Final(fs, inp, ch));
    DescendsTransitive(fs, Placed(fs, inp, ch).fs, Final(fs, inp, ch));
  }

  /** Without a recheck request no file changed. */
  lemma NoRecheckNoChange(fs: Fs, inp: Input, ch: Choices)
    requires Runs(fs, inp, ch) && !Recheck(fs, inp, ch)
    ensures Final(fs, inp, ch).files == fs.files
  {
    Stages(fs, inp, ch);
    IndexFacts(fs.files, ch.listing);
    PlaceAllUnmoved(inp, IndexOf(fs.files, ch.listing), Moves(fs, {}, false), inp.layout);
    MinusDisjoint(Placed(fs, inp, ch).fs.files, Stale(inp));
  }

  lemma MinusDisjoint(files: map<Path, string>, gone: set<Path>)
    requires files.Keys * gone == {}
    ensures files - gone == files
  {
    assert forall p :: p in files && p in gone ==> p in files.Keys * gone;
  }

  /** Main result: afterwards no tracked path outside the layout is a file. */
  lemma NoStaleFileLeft(fs: Fs, inp: Input, ch: Choices, p: Path)
    requires Runs(fs, inp, ch) && p in inp.tracked && p !in LayoutPaths(inp)
    ensures p !in Final(fs, inp, ch).files
  {
    Stages(fs, inp, ch);
  }

  /** Main result: afterwards a directory strictly under the share root has a file somewhere below it. */
  lemma NoEmptyDirLeft(fs: Fs, inp: Input, ch: Choices, d: Path)
    requires Runs(fs, inp, ch) && d in Unlinked(fs, inp, ch).dirs && StrictlyUnder(d, inp.local)
    ensures d in Final(fs, inp, ch).dirs <==> HasFileBelow(Final(fs, inp, ch), d)
  {
    Stages(fs, inp, ch);
    CleanupKeepsExactlyFullDirs(Unlinked(fs, inp, ch), inp.local, ch.leftover, d);
  }

  // ----- the share root stays -----------------------------------------------------------------------

  lemma {:induction false} RmdirAllSpares(fs: Fs, ds: seq<Path>, d: Path)
    requires d in fs.dirs && d !in ds
    ensures d in RmdirAll(fs, ds).dirs
  {
    if ds != [] {
      RmdirAllSpares(fs, ds[..|ds| - 1], d);
    }
  }

  lemma {:induction false} PlaceAllSpares(inp: Input, index: map<Key, Path>, m: Moves, layout: seq<Entry>, d: Path)
    requires NonRoot(index) && Rooted(layout) && d in m.fs.dirs
    requires forall key :: key in index ==> !(index[key] <= d)
    ensures d in PlaceAll(inp, index, m, layout).fs.dirs
  {
    if layout != [] {
      PlaceAllSpares(inp, index, m, layout[..|layout| - 1], d);
    }
  }

  /** Main result: whatever is moved or cleaned up, the share's own directory is still there. */
  lemma RootStays(fs: Fs, inp: Input, ch: Choices)
    requires Runs(fs, inp, ch) && inp.local in fs.dirs
    ensures inp.local in Final(fs, inp, ch).dirs
  {
    IndexFacts(fs.files, ch.listing);
    PlaceAllSpares(inp, IndexOf(fs.files, ch.listing), Moves(fs, {}, false), inp.layout, inp.local);
    RmdirAllSpares(Placed(fs, inp, ch).fs, ch.climbed, inp.local);
    RmdirAllSpares(Unlinked(fs, inp, ch), ch.leftover, inp.local);
  }

  // ----- frame: files the layout has nothing to do with ----------------------------------------------

  ghost predicate Holds(fs: Fs, p: Path, content: string) {
    p in fs.files && fs.files[p] == content
  }

  lemma PlaceOneFrame(fs0: Fs, inp: Input, index: map<Key, Path>, m: Moves, e: Entry, u: Path)
    requires Tree(fs0) && Tree(m.fs) && Sound(fs0, index) && e.rel != []
    requires u in fs0.files && u != [] && Holds(m.fs, u, fs0.files[u])
    requires u != Target(inp, e) && KeyOf(fs0.files, u) != EntryKey(inp, e)
    ensures Holds(PlaceOne(inp, index, m, e).fs, u, fs0.files[u])
  {
    var t := Target(inp, e);
    var key := EntryKey(inp, e);
    if key in index {
      var src := index[key];
      var made := Mkdir(m.fs, Parent(t));
      MkdirTree(m.fs, Parent(t));
      assert src != u;
      if Grafts(made, src, t) && src !in made.files {
        if StrictlyUnder(u, src) {
          AncestorIsDir(fs0, src, u);
        }
        if t <= u {
          NothingUnderTarget(made, src, t, u);
        }
        Grafted(made, src, t, u);
      }
    }
  }

  lemma {:induction false} PlaceAllFrame(fs0: Fs, inp: Input, index: map<Key, Path>, layout: seq<Entry>, u: Path)
    requires Tree(fs0) && Sound(fs0, index) && u in fs0.files && u != []
    requires Rooted(layout)
    requires forall i :: 0 <= i < |layout| ==>
      u != Target(inp, layout[i]) && KeyOf(fs0.files, u) != EntryKey(inp, layout[i])
    ensures Holds(PlaceAll(inp, index, Moves(fs0, {}, false), layout).fs, u, fs0.files[u])
  {
    if layout != [] {
      var k := |layout| - 1;
      var m := PlaceAll(inp, index, Moves(fs0, {}, false), layout[..k]);
      PlaceAllFrame(fs0, inp, index, layout[..k], u);
      PlaceAllTree(inp, index, Moves(fs0, {}, false), layout[..k]);
      PlaceOneFrame(fs0, inp, index, m, layout[k], u);
    }
  }

  /** Main result, frame: untracked, at no layout path, of no layout key means untouched -- for any layout. */
  lemma UnrelatedFilesUntouched(fs: Fs, inp: Input, ch: Choices, u: Path)
    requires Runs(fs, inp, ch) && u in fs.files && u != []
    requires u !in inp.tracked && u !in LayoutPaths(inp)
    requires forall i :: 0 <= i < |inp.layout| ==> KeyOf(fs.files, u) != EntryKey(inp, inp.layout[i])
    ensures Holds(Final(fs, inp, ch), u, fs.files[u])
  {
    Stages(fs, inp, ch);
    IndexFacts(fs.files, ch.listing);
    forall i | 0 <= i < |inp.layout|
      ensures u != Target(inp, inp.layout[i])
    {
      assert Target(inp, inp.layout[i]) in LayoutPaths(inp);
    }
    PlaceAllFrame(fs, inp, IndexOf(fs.files, ch.listing), inp.layout, u);
  }

  // ----- the function itself ---------------------------------------------------------------------------

  method BuildIndex(disk: Disk, local: Path) returns (index: map<Key, Path>, listing: seq<Path>)
    requires Tree(disk.View())
    ensures Lists(disk.View(), local, listing) && AreFiles(disk.files, listing)
    ensures index == IndexOf(disk.files, listing)
  {
    listing := disk.FilesUnder(local);
    forall i | 0 <= i < |listing|
      ensures listing[i] in disk.files && listing[i] != []
    {
      assert listing[i] in listing;
    }
    index := map[];
    for i := 0 to |listing|
      invariant index == IndexOf(disk.files, listing[..i])
    {
      index := index[KeyOf(disk.files, listing[i]) := listing[i]];
      assert listing[..i + 1][..i] == listing[..i];
    }
    assert listing[..|listing|] == listing;
  }

  method PlaceEntries(disk: Disk, inp: Input, index: map<Key, Path>) returns (vacated: set<Path>, moved: bool)
    requires Proper(inp) && NonRoot(index)
    modifies disk
    ensures Moves(disk.View(), vacated, moved) == PlaceAll(inp, index, Moves(old(disk.View()), {}, false), inp.layout)
  {
    ghost var start := Moves(disk.View(), {}, false);
    vacated, moved := {}, false;
    for i := 0 to |inp.layout|
      invariant Moves(disk.View(), vacated, moved) == PlaceAll(inp, index, start, inp.layout[..i])
    {
      assert inp.layout[..i + 1][..i] == inp.layout[..i];
      var e := inp.layout[i];
      var expected := Target(inp, e);
      if expected in disk.files && |disk.files[expected]| == e.size {
        continue;
      }
      if expected in disk.dirs && inp.dirSize(expected) == e.size {
        continue;
      }
      var key := (Name(expected), e.size);
      if key in index && (index[key] in disk.files || index[key] in disk.dirs) {
        var src := index[key];
        var made := disk.MakeDirs(Parent(expected));
        if made {
          vacated := vacated + {Parent(src)};
          var ok := disk.Move(src, expected);
          if ok {
            moved := true;
          }
        }
      }
    }
    assert inp.layout[..|inp.layout|] == inp.layout;
  }

  /** Collects the vacated directories and everything above them inside the share. */
  method ClimbFrom(vacated: set<Path>, local: Path) returns (tries: set<Path>)
    ensures tries == Climb(vacated, local)
  {
    tries := {};
    var todo := vacated;
    while todo != {}
      invariant todo <= vacated && tries == Climb(vacated - todo, local)
      decreases todo
    {
      var d :| d in todo;
      var before := tries;
      var p := d;
      while p != local && local <= p
        invariant p <= d && tries == before + set k | |p| < k <= |d| && local <= d && |local| < k :: d[..k]
        decreases |p|
      {
        assert d[..|p|] == p;
        tries := tries + {p};
        p := p[..|p| - 1];
      }
      assert p <= d && (local <= d && |local| <= |p| ==> local <= p);
      assert vacated - (todo - {d}) == (vacated - todo) + {d};
      todo := todo - {d};
    }
    assert vacated - {} == vacated;
  }

  method UnlinkStale(disk: Disk, inp: Input) returns (removed: bool)
    modifies disk
    ensures disk.View() == old(disk.View()).(files := old(disk.files) - Stale(inp))
    ensures removed <==> old(disk.files).Keys * Stale(inp) != {}
  {
    removed := false;
    var newLayout := LayoutPaths(inp);
    var todo := inp.tracked;
    while todo != {}
      invariant todo <= inp.tracked && disk.dirs == old(disk.dirs)
      invariant disk.files == old(disk.files) - (inp.tracked - todo - newLayout)
      invariant removed <==> exists f :: f in old(disk.files) && f in inp.tracked - todo - newLayout
      decreases todo
    {
      var f :| f in todo;
      todo := todo - {f};
      if f !in newLayout && (f in disk.files || f in disk.dirs) {
        var ok := disk.Remove(f);
        removed := removed || ok;
      }
    }
    assert inp.tracked - {} - newLayout == Stale(inp);
    assert forall f :: f in old(disk.files) && f in Stale(inp) <==> f in old(disk.files).Keys * Stale(inp);
  }

  method PrepositionFiles(disk: Disk, inp: Input) returns (movedAny: bool, ghost ch: Choices)
    requires Tree(disk.View()) && Proper(inp)
    modifies disk
    ensures Runs(old(disk.View()), inp, ch)
    ensures disk.View() == Final(old(disk.View()), inp, ch)
    ensures movedAny == Recheck(old(disk.View()), inp, ch)
  {
    ghost var fs := disk.View();
    var index, listing := BuildIndex(disk, inp.local);
    IndexFacts(fs.files, listing);
    var vacated, moved := PlaceEntries(disk, inp, index);
    ghost var placed := disk.View();
    PlaceAllTree(inp, index, Moves(fs, {}, false), inp.layout);
    var tries := ClimbFrom(vacated, inp.local);
    var climbed := SortDeepestFirst(tries);
    disk.RemoveDirs(climbed);
    RmdirAllTree(placed, climbed);
    var removed := UnlinkStale(disk, inp);
    var under := set d | d in disk.dirs && StrictlyUnder(d, inp.local);
    var leftover := SortDeepestFirst(under);
    ch := Choices(listing, climbed, leftover);
    assert disk.View() == Unlinked(fs, inp, ch);
    disk.RemoveDirs(leftover);
    movedAny := moved || removed;
  }
}
