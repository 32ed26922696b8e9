/**
 A directory tree as pathlib sees it: files with contents, directories, no links, and every
 entry's parent a directory. Errors are those POSIX gives on such a tree; permission and
 disk errors are not part of this model.
 */
module FileTree {
  import opened Wrappers

  /** Components below the file system root; [] is the root. */
  type Path = seq<string>

  /** A file is its content; its size is the content's length. */
  datatype Fs = Fs(files: map<Path, string>, dirs: set<Path>)

  function Parent(p: Path): Path
    requires p != []
  {
    p[..|p| - 1]
  }

  function Name(p: Path): string
    requires p != []
  {
    p[|p| - 1]
  }

  predicate StrictlyUnder(p: Path, d: Path) {
    |d| < |p| && d <= p
  }

  ghost predicate Tree(fs: Fs) {
    && [] in fs.dirs
    && fs.files.Keys !! fs.dirs
    && (forall p :: p in fs.files ==> p != [] && Parent(p) in fs.dirs)
    && (forall p :: p in fs.dirs && p != [] ==> Parent(p) in fs.dirs)
  }

  predicate Exists(fs: Fs, p: Path) {
    p in fs.files || p in fs.dirs
  }

  lemma {:induction false} AncestorsAreDirs(fs: Fs, p: Path, k: nat)
    requires Tree(fs) && Exists(fs, p) && k < |p|
    ensures p[..k] in fs.dirs
    decreases |p|
  {
    if k < |p| - 1 {
      AncestorsAreDirs(fs, Parent(p), k);
      assert Parent(p)[..k] == p[..k];
    }
  }

  /** What lies above an entry is a directory, never a file. */
  lemma AncestorIsDir(fs: Fs, d: Path, p: Path)
    requires Tree(fs) && Exists(fs, p) && StrictlyUnder(p, d)
    ensures d in fs.dirs && d !in fs.files
  {
    AncestorsAreDirs(fs, p, |d|);
    assert p[..|d|] == d;
  }

  /** The entry through which `d` leads to `p`. */
  lemma ChildTowards(fs: Fs, d: Path, p: Path)
    requires Tree(fs) && Exists(fs, p) && StrictlyUnder(p, d)
    ensures Exists(fs, p[..|d| + 1]) && Parent(p[..|d| + 1]) == d
  {
    if |d| + 1 < |p| {
      AncestorsAreDirs(fs, p, |d| + 1);
    } else {
      assert p[..|d| + 1] == p;
    }
  }

  // ----- mkdir ------------------------------------------------------------------------

  function Prefixes(p: Path): (s: set<Path>)
    ensures forall q {:trigger q in s} :: q in s <==> q <= p
  {
    var s := set k | 0 <= k <= |p| :: p[..k];
    assert forall q {:trigger q in s} :: q <= p ==> p[..|q|] == q;
    s
  }

  /** mkdir(parents=True, exist_ok=True): refused when a file is in the way, otherwise all of it. */
  predicate CanMkdir(fs: Fs, p: Path) {
    forall q :: q in Prefixes(p) ==> q !in fs.files
  }

  function Mkdir(fs: Fs, p: Path): Fs {
    if CanMkdir(fs, p) then fs.(dirs := fs.dirs + Prefixes(p)) else fs
  }

  // ----- rename -------------------------------------------------------------------------

  /** No entry has this directory as its parent. */
  predicate IsEmptyDir(fs: Fs, d: Path) {
    && (forall p :: p in fs.files && p != [] ==> Parent(p) != d)
    && (forall p :: p in fs.dirs && p != [] ==> Parent(p) != d)
  }

  predicate CanRename(fs: Fs, src: Path, dst: Path) {
    && dst != [] && Parent(dst) in fs.dirs
    && if src in fs.files then dst !in fs.dirs
       else src in fs.dirs
            && (src == dst || (!(src <= dst) && dst !in fs.files && (dst in fs.dirs ==> IsEmptyDir(fs, dst))))
  }

  function Regraft(p: Path, src: Path, dst: Path): Path
    requires src <= p
  {
    dst + p[|src|..]
  }

  lemma RegraftInjective(src: Path, dst: Path)
    ensures forall p, q | src <= p && src <= q && Regraft(p, src, dst) == Regraft(q, src, dst) :: p == q
  {
    forall p, q | src <= p && src <= q && Regraft(p, src, dst) == Regraft(q, src, dst)
      ensures p == q
    {
      assert p[|src|..] == Regraft(p, src, dst)[|dst|..] == q[|src|..];
      assert p == src + p[|src|..] && q == src + q[|src|..];
    }
  }

  function GraftedFiles(files: map<Path, string>, src: Path, dst: Path): map<Path, string> {
    RegraftInjective(src, dst);
    (map p | p in files && !(src <= p) :: files[p]) +
    (map p | p in files && src <= p :: Regraft(p, src, dst) := files[p])
  }

  function GraftedDirs(dirs: set<Path>, src: Path, dst: Path): set<Path> {
    (set p | p in dirs && !(src <= p)) + (set p | p in dirs && src <= p :: Regraft(p, src, dst))
  }

  /** rename(2): a file replaces a file; a directory takes its whole subtree along. */
  function Rename(fs: Fs, src: Path, dst: Path): Fs {
    if !CanRename(fs, src, dst) then fs
    else if src in fs.files then fs.(files := (fs.files - {src})[dst := fs.files[src]])
    else if src == dst then fs
    else Fs(GraftedFiles(fs.files, src, dst), GraftedDirs(fs.dirs, src, dst))
  }

  // ----- unlink and rmdir -------------------------------------------------------------------

  function Unlink(fs: Fs, p: Path): Fs {
    fs.(files := fs.files - {p})
  }

  function Rmdir(fs: Fs, d: Path): Fs {
    if d in fs.dirs && d != [] && IsEmptyDir(fs, d) then fs.(dirs := fs.dirs - {d}) else fs
  }

  function RmdirAll(fs: Fs, ds: seq<Path>): Fs {
    if ds == [] then fs else Rmdir(RmdirAll(fs, ds[..|ds| - 1]), ds[|ds| - 1])
  }

  /** Each path of `s` once, longer paths first. */
  ghost predicate DeepestFirst(ds: seq<Path>, s: set<Path>) {
    && (forall d :: d in ds <==> d in s)
    && (forall i, j :: 0 <= i < j < |ds| ==> |ds[i]| >= |ds[j]|)
  }

  // ----- every operation keeps a tree --------------------------------------------------------

  lemma MkdirTree(fs: Fs, p: Path)
    requires Tree(fs)
    ensures Tree(Mkdir(fs, p)) && (CanMkdir(fs, p) ==> p in Mkdir(fs, p).dirs)
  {
    forall q | q in Prefixes(p) && q != []
      ensures Parent(q) in Prefixes(p)
    {
      assert Parent(q) <= p;
    }
  }

  ghost predicate Grafts(fs: Fs, src: Path, dst: Path) {
    Tree(fs) && CanRename(fs, src, dst) && src in fs.dirs && src != dst
  }

  /** Where the entry at `p` was before a directory was renamed. */
  function Before(p: Path, src: Path, dst: Path): Path {
    if dst <= p then Regraft(p, dst, src) else p
  }

  lemma NothingUnderTarget(fs: Fs, src: Path, dst: Path, p: Path)
    requires Grafts(fs, src, dst) && Exists(fs, p) && dst <= p
    ensures p == dst && p in fs.dirs
  {
    if p != dst {
      AncestorIsDir(fs, dst, p);
      ChildTowards(fs, dst, p);
    }
  }

  /** Entry by entry, what renaming a directory does. */
  lemma Grafted(fs: Fs, src: Path, dst: Path, p: Path)
    requires Grafts(fs, src, dst)
    ensures var fs', q := Rename(fs, src, dst), Before(p, src, dst);
            && (p in fs'.files <==> q in fs.files && (src <= p ==> dst <= p))
            && (p in fs'.dirs <==> q in fs.dirs && (src <= p ==> dst <= p))
            && (p in fs'.files ==> fs'.files[p] == fs.files[q])
  {
    var q := Before(p, src, dst);
    RegraftInjective(src, dst);
    if dst <= p {
      assert Regraft(q, src, dst) == p;
      if Exists(fs, p) {
        NothingUnderTarget(fs, src, dst, p);
        assert q == src;
      }
      forall o | src <= o && Regraft(o, src, dst) == p
        ensures o == q
      {
      }
    }
  }

  lemma GraftTree(fs: Fs, src: Path, dst: Path)
    requires Grafts(fs, src, dst)
    ensures Tree(Rename(fs, src, dst))
  {
    var fs' := Rename(fs, src, dst);
    Grafted(fs, src, dst, []);
    forall p | Exists(fs', p)
      ensures !(p in fs'.files && p in fs'.dirs) && (p in fs'.files ==> p != [])
      ensures p != [] ==> Parent(p) in fs'.dirs
    {
      Grafted(fs, src, dst, p);
      if p != [] {
        Grafted(fs, src, dst, Parent(p));
        if dst <= p && p != dst {
          assert dst <= Parent(p);
          assert Before(Parent(p), src, dst) == Parent(Before(p, src, dst));
        } else if p == dst {
          assert !(src <= Parent(dst));
        } else {
          assert !(dst <= Parent(p));
        }
      }
    }
  }

  lemma RenameTree(fs: Fs, src: Path, dst: Path)
    requires Tree(fs)
    ensures Tree(Rename(fs, src, dst))
  {
    if CanRename(fs, src, dst) && src !in fs.files && src != dst {
      GraftTree(fs, src, dst);
    }
  }

  lemma RmdirTree(fs: Fs, d: Path)
    requires Tree(fs)
    ensures Tree(Rmdir(fs, d)) && Rmdir(fs, d).files == fs.files
    ensures Rmdir(fs, d).dirs == fs.dirs || Rmdir(fs, d).dirs == fs.dirs - {d}
  {
  }

  lemma {:induction false} RmdirAllTree(fs: Fs, ds: seq<Path>)
    requires Tree(fs)
    ensures var fs' := RmdirAll(fs, ds);
            Tree(fs') && fs'.files == fs.files && fs'.dirs <= fs.dirs && forall d :: d in fs.dirs - fs'.dirs ==> d in ds
  {
    if ds != [] {
      var front, last := ds[..|ds| - 1], ds[|ds| - 1];
      RmdirAllTree(fs, front);
      RmdirTree(RmdirAll(fs, front), last);
      assert ds == front + [last];
    }
  }

  // ----- contents come from somewhere -----------------------------------------------------------

  /** `origin` maps each file of `b` to the file of `a` it was, no two to the same one. */
  ghost predicate Origin(a: Fs, b: Fs, origin: map<Path, Path>) {
    && origin.Keys == b.files.Keys
    && (forall p :: p in b.files ==> origin[p] in a.files && b.files[p] == a.files[origin[p]])
    && (forall p, q :: p in b.files && q in b.files && origin[p] == origin[q] ==> p == q)
  }

  /** Nothing in `b` was copied or made up: its contents are a sub-multiset of those of `a`. */
  ghost predicate Descends(a: Fs, b: Fs) {
    exists origin :: Origin(a, b, origin)
  }

  lemma DescendsSubset(a: Fs, b: Fs)
    requires b.files.Keys <= a.files.Keys && forall p :: p in b.files ==> b.files[p] == a.files[p]
    ensures Descends(a, b)
  {
    assert Origin(a, b, map p | p in b.files :: p);
  }

  lemma DescendsTransitive(a: Fs, b: Fs, c: Fs)
    requires Descends(a, b) && Descends(b, c)
    ensures Descends(a, c)
  {
    var f :| Origin(a, b, f);
    var g :| Origin(b, c, g);
    OriginsCompose(a, b, c, f, g);
  }

  lemma OriginsCompose(a: Fs, b: Fs, c: Fs, f: map<Path, Path>, g: map<Path, Path>)
    requires Origin(a, b, f) && Origin(b, c, g)
    ensures Descends(a, c)
  {
    var h := map p | p in c.files :: f[g[p]];
    forall p, q | p in c.files && q in c.files && h[p] == h[q]
      ensures p == q
    {
      assert g[p] in b.files && g[q] in b.files;
    }
    assert Origin(a, c, h);
  }

  lemma RenameDescends(fs: Fs, src: Path, dst: Path)
    requires Tree(fs)
    ensures Descends(fs, Rename(fs, src, dst))
  {
    var fs' := Rename(fs, src, dst);
    if !CanRename(fs, src, dst) || (src !in fs.files && src == dst) {
      DescendsSubset(fs, fs');
    } else if src in fs.files {
      assert Origin(fs, fs', map p | p in fs'.files :: if p == dst then src else p);
    } else {
      GraftDescends(fs, src, dst);
    }
  }

  lemma GraftDescends(fs: Fs, src: Path, dst: Path)
    requires Grafts(fs, src, dst)
    ensures Descends(fs, Rename(fs, src, dst))
  {
    var fs' := Rename(fs, src, dst);
    var before := map p | p in fs'.files :: Before(p, src, dst);
    forall p | p in fs'.files
      ensures before[p] in fs.files && fs'.files[p] == fs.files[before[p]]
    {
      Grafted(fs, src, dst, p);
    }
    forall p, q | p in fs'.files && q in fs'.files && before[p] == before[q]
      ensures p == q
    {
      Grafted(fs, src, dst, p);
      Grafted(fs, src, dst, q);
      RegraftInjective(dst, src);
      assert dst <= p ==> src <= before[p];
      assert dst <= q ==> src <= before[q];
    }
    assert Origin(fs, fs', before);
  }

  // ----- the deepest-first pass ---------------------------------------------------------------------

  ghost predicate HasFileBelow(fs: Fs, d: Path) {
    exists p :: p in fs.files && StrictlyUnder(p, d)
  }

  lemma RmdirSparesFullDirs(fs: Fs, d: Path)
    requires Tree(fs) && HasFileBelow(fs, d)
    ensures d in fs.dirs && !IsEmptyDir(fs, d)
  {
    var p :| p in fs.files && StrictlyUnder(p, d);
    AncestorIsDir(fs, d, p);
    ChildTowards(fs, d, p);
  }

  /** After the first k directories, exactly those with a file somewhere below are left of them. */
  lemma {:induction false} CleanupPrefix(fs: Fs, root: Path, ds: seq<Path>, k: nat)
    requires Tree(fs) && k <= |ds|
    requires DeepestFirst(ds, set d | d in fs.dirs && StrictlyUnder(d, root))
    ensures forall i :: 0 <= i < k ==> (ds[i] in RmdirAll(fs, ds[..k]).dirs <==> HasFileBelow(fs, ds[i]))
  {
    if k > 0 {
      CleanupPrefix(fs, root, ds, k - 1);
      RmdirAllTree(fs, ds[..k - 1]);
      var mid := RmdirAll(fs, ds[..k - 1]);
      var d := ds[k - 1];
      assert ds[..k][..k - 1] == ds[..k - 1];
      assert d in ds;
      CleanupOne(fs, mid, root, ds, k - 1);
      forall i | 0 <= i < k - 1
        ensures ds[i] in RmdirAll(fs, ds[..k]).dirs <==> HasFileBelow(fs, ds[i])
      {
        if HasFileBelow(fs, ds[i]) {
          FullDirStays(fs, mid, ds[i], d);
        }
      }
    }
  }

  lemma FullDirStays(fs: Fs, mid: Fs, full: Path, d: Path)
    requires Tree(mid) && mid.files == fs.files && HasFileBelow(fs, full)
    ensures full in Rmdir(mid, d).dirs
  {
    assert HasFileBelow(mid, full);
    RmdirSparesFullDirs(mid, full);
  }

  lemma CleanupOne(fs: Fs, mid: Fs, root: Path, ds: seq<Path>, k: nat)
    requires Tree(fs) && Tree(mid) && k < |ds| && mid.files == fs.files && mid.dirs <= fs.dirs
    requires DeepestFirst(ds, set d | d in fs.dirs && StrictlyUnder(d, root))
    requires forall i :: 0 <= i < k ==> (ds[i] in mid.dirs <==> HasFileBelow(fs, ds[i]))
    ensures ds[k] in Rmdir(mid, ds[k]).dirs <==> HasFileBelow(fs, ds[k])
  {
    assert ds[k] in ds;
    if HasFileBelow(fs, ds[k]) {
      FullDirStays(fs, mid, ds[k], ds[k]);
    } else if !IsEmptyDir(mid, ds[k]) {
      ChildLeftMeansFileBelow(fs, mid, root, ds, k);
    }
  }

  /** A directory that still has a child when its turn comes has a file below. */
  lemma ChildLeftMeansFileBelow(fs: Fs, mid: Fs, root: Path, ds: seq<Path>, k: nat)
    requires Tree(fs) && Tree(mid) && k < |ds| && mid.files == fs.files && mid.dirs <= fs.dirs
    requires DeepestFirst(ds, set d | d in fs.dirs && StrictlyUnder(d, root))
    requires forall i :: 0 <= i < k ==> (ds[i] in mid.dirs <==> HasFileBelow(fs, ds[i]))
    requires !IsEmptyDir(mid, ds[k])
    ensures HasFileBelow(fs, ds[k])
  {
    var d := ds[k];
    assert d in ds && StrictlyUnder(d, root);
    var p :| (p in mid.files || p in mid.dirs) && p != [] && p[..|p| - 1] == d;
    assert StrictlyUnder(p, d);
    assert StrictlyUnder(p, root);
    if p in mid.dirs {
      assert p in ds;
      var i :| 0 <= i < |ds| && ds[i] == p;
      var f :| f in fs.files && StrictlyUnder(f, p);
      assert StrictlyUnder(f, d);
    }
  }

  /** Main result: a directory strictly under the root survives the pass iff a file lies somewhere below it. */
  lemma CleanupKeepsExactlyFullDirs(fs: Fs, root: Path, ds: seq<Path>, d: Path)
    requires Tree(fs) && d in fs.dirs && StrictlyUnder(d, root)
    requires DeepestFirst(ds, set p | p in fs.dirs && StrictlyUnder(p, root))
    ensures d in RmdirAll(fs, ds).dirs <==> HasFileBelow(RmdirAll(fs, ds), d)
  {
    CleanupPrefix(fs, root, ds, |ds|);
    RmdirAllTree(fs, ds);
    assert ds[..|ds|] == ds;
    assert d in ds;
  }

  // ----- the mutable tree -----------------------------------------------------------------------------

  class Disk {
    var files: map<Path, string>
    var dirs: set<Path>

    ghost function View(): Fs
      reads this
    {
      Fs(files, dirs)
    }

    constructor (fs: Fs)
      ensures View() == fs
    {
      files, dirs := fs.files, fs.dirs;
    }

    /** False is the OSError of a file in the way. */
    method MakeDirs(p: Path) returns (ok: bool)
      modifies this
      ensures View() == Mkdir(old(View()), p) && ok == CanMkdir(old(View()), p)
    {
      ok := CanMkdir(Fs(files, dirs), p);
      if ok {
        dirs := dirs + Prefixes(p);
      }
    }

    /** False is an OSError: nothing to rename, or a target that cannot be replaced. */
    method Move(src: Path, dst: Path) returns (ok: bool)
      modifies this
      ensures View() == Rename(old(View()), src, dst) && ok == CanRename(old(View()), src, dst)
    {
      ok := CanRename(Fs(files, dirs), src, dst);
      if ok {
        if src in files {
          files := (files - {src})[dst := files[src]];
        } else if src != dst {
          files, dirs := GraftedFiles(files, src, dst), GraftedDirs(dirs, src, dst);
        }
      }
    }

    /** False is an OSError: no file of that name. */
    method Remove(p: Path) returns (ok: bool)
      modifies this
      ensures View() == Unlink(old(View()), p) && ok == (p in old(files))
    {
      ok := p in files;
      files := files - {p};
    }

    /** Removes an empty directory; does nothing where rmdir raises. */
    method RemoveDir(d: Path)
      modifies this
      ensures View() == Rmdir(old(View()), d)
    {
      if d in dirs && d != [] && IsEmptyDir(Fs(files, dirs), d) {
        dirs := dirs - {d};
      }
    }

    method RemoveDirs(ds: seq<Path>)
      modifies this
      ensures View() == RmdirAll(old(View()), ds)
    {
      for i := 0 to |ds|
        invariant View() == RmdirAll(old(View()), ds[..i])
      {
        RemoveDir(ds[i]);
        assert ds[..i + 1][..i] == ds[..i];
      }
      assert ds[..|ds|] == ds;
    }

    /** The files below a directory, each once, in whatever order the system lists them. */
    method FilesUnder(root: Path) returns (listing: seq<Path>)
      ensures forall p :: p in listing <==> p in files && StrictlyUnder(p, root)
    {
      var todo := set p | p in files && StrictlyUnder(p, root);
      listing := [];
      ghost var all := todo;
      while todo != {}
        invariant forall p :: p in all <==> p in listing || p in todo
        decreases todo
      {
        var p :| p in todo;
        todo, listing := todo - {p}, listing + [p];
      }
    }
  }

  method Deepest(s: set<Path>) returns (d: Path)
    requires s != {}
    ensures d in s && forall p :: p in s ==> |p| <= |d|
  {
    d :| d in s;
    var todo := s;
    while todo != {}
      invariant todo <= s && d in s && forall p :: p in s - todo ==> |p| <= |d|
      decreases todo
    {
      var p :| p in todo;
      todo := todo - {p};
      if |p| > |d| {
        d := p;
      }
    }
  }

  method SortDeepestFirst(s: set<Path>) returns (ds: seq<Path>)
    ensures DeepestFirst(ds, s)
  {
    ds := [];
    var todo := s;
    while todo != {}
      invariant todo <= s && forall p :: p in s <==> p in ds || p in todo
      invariant forall i, j :: 0 <= i < j < |ds| ==> |ds[i]| >= |ds[j]|
      invariant forall i, p :: 0 <= i < |ds| && p in todo ==> |p| <= |ds[i]|
      decreases todo
    {
      var d := Deepest(todo);
      todo, ds := todo - {d}, ds + [d];
    }
  }
}
