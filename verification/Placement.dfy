/**
 Where the layout entries end up after the pre-positioning pass of `Preposition`
 (daemon/daemon/sync/torrent_mgr.py:375-445), for a layout with pairwise distinct targets
 none of which is blocked by a directory or by a file in the place of a parent.

 An entry can lose its file to a later one: a move takes its source away wherever it lies.
 Every entry that was in place or matched a local file ends placed exactly when no move takes
 a file that another entry has in place, has been given, or has already taken.
 */
module Placement {
  import opened Wrappers
  import opened FileTree
  import opened Preposition

  // ----- entries ------------------------------------------------------------------------------------

  ghost predicate Unblocked(fs: Fs, inp: Input)
    requires Proper(inp)
  {
    && (forall i, j :: 0 <= i < j < |inp.layout| ==> Target(inp, inp.layout[i]) != Target(inp, inp.layout[j]))
    && (forall i :: 0 <= i < |inp.layout| ==> Target(inp, inp.layout[i]) !in fs.dirs)
    && (forall i, f :: 0 <= i < |inp.layout| && f in fs.files ==> !StrictlyUnder(Target(inp, inp.layout[i]), f))
    && (forall i, j :: 0 <= i < |inp.layout| && 0 <= j < |inp.layout| ==>
          !StrictlyUnder(Target(inp, inp.layout[i]), Target(inp, inp.layout[j])))
  }

  ghost predicate Situation(fs0: Fs, inp: Input, index: map<Key, Path>) {
    Tree(fs0) && Proper(inp) && Sound(fs0, index) && Unblocked(fs0, inp)
  }

  function At(inp: Input, i: nat): Path
    requires i < |inp.layout|
  {
    Target(inp, inp.layout[i])
  }

  /** The target was a file of the right size from the start. */
  predicate Settled(fs0: Fs, inp: Input, i: nat)
    requires i < |inp.layout|
  {
    At(inp, i) in fs0.files && |fs0.files[At(inp, i)]| == inp.layout[i].size
  }

  /** Not in place, but some local file has its name and size. */
  predicate Moving(fs0: Fs, inp: Input, index: map<Key, Path>, i: nat)
    requires Proper(inp) && i < |inp.layout|
  {
    !Settled(fs0, inp, i) && EntryKey(inp, inp.layout[i]) in index
  }

  function Source(inp: Input, index: map<Key, Path>, i: nat): Path
    requires Proper(inp) && i < |inp.layout| && EntryKey(inp, inp.layout[i]) in index
  {
    index[EntryKey(inp, inp.layout[i])]
  }

  /** The file entry j takes is in place for another entry, or was given to or taken by an earlier one. */
  ghost predicate Clashes(fs0: Fs, inp: Input, index: map<Key, Path>, j: nat)
    requires Proper(inp) && j < |inp.layout| && Moving(fs0, inp, index, j)
  {
    var src := Source(inp, index, j);
    || (exists e :: 0 <= e < |inp.layout| && Settled(fs0, inp, e) && src == At(inp, e))
    || (exists i :: 0 <= i < j && Moving(fs0, inp, index, i) && (src == At(inp, i) || src == Source(inp, index, i)))
  }

  ghost predicate NoClashBefore(fs0: Fs, inp: Input, index: map<Key, Path>, k: nat)
    requires Proper(inp) && k <= |inp.layout|
  {
    forall j :: 0 <= j < k && Moving(fs0, inp, index, j) ==> !Clashes(fs0, inp, index, j)
  }

  // ----- what every run keeps -----------------------------------------------------------------------

  ghost predicate SameAt(fs0: Fs, fs: Fs, p: Path) {
    (p in fs.files <==> p in fs0.files) && (p in fs.files ==> fs.files[p] == fs0.files[p])
  }

  ghost predicate AboveTarget(inp: Input, k: nat, d: Path)
    requires k <= |inp.layout|
  {
    exists j :: 0 <= j < k && StrictlyUnder(At(inp, j), d)
  }

  ghost predicate OnlyTargetsAdded(fs0: Fs, fs: Fs, inp: Input) {
    forall f :: f in fs.files && f !in fs0.files ==> f in LayoutPaths(inp)
  }

  ghost predicate OnlyParentsMade(fs0: Fs, fs: Fs, inp: Input, k: nat)
    requires k <= |inp.layout|
  {
    forall d :: d in fs.dirs && d !in fs0.dirs ==> AboveTarget(inp, k, d)
  }

  /** A target whose entry has not had its turn holds what it held, or has been taken away. */
  ghost predicate LateTargets(fs0: Fs, fs: Fs, inp: Input, k: nat)
    requires k <= |inp.layout|
  {
    forall e :: k <= e < |inp.layout| && At(inp, e) in fs.files ==> SameAt(fs0, fs, At(inp, e))
  }

  /** What holds after the first k entries, whatever clashes. */
  ghost predicate Kept(fs0: Fs, fs: Fs, inp: Input, k: nat)
    requires k <= |inp.layout|
  {
    Tree(fs) && OnlyTargetsAdded(fs0, fs, inp) && OnlyParentsMade(fs0, fs, inp, k) && LateTargets(fs0, fs, inp, k)
  }

  /** An unblocked target can always be reached. */
  lemma TargetIsFree(fs0: Fs, fs: Fs, inp: Input, k: nat)
    requires Proper(inp) && k < |inp.layout| && Unblocked(fs0, inp)
    requires OnlyTargetsAdded(fs0, fs, inp) && OnlyParentsMade(fs0, fs, inp, k)
    ensures var t := At(inp, k); t !in fs.dirs && CanMkdir(fs, Parent(t)) && t !in Prefixes(Parent(t))
  {
    var t := At(inp, k);
    assert !AboveTarget(inp, k, t);
    forall q | q in Prefixes(Parent(t))
      ensures q !in fs.files
    {
      assert StrictlyUnder(t, q);
      assert forall j :: 0 <= j < |inp.layout| ==> q != At(inp, j);
    }
  }

  /** An indexed file never turns into a directory. */
  lemma SourceIsNoDir(fs0: Fs, fs: Fs, inp: Input, k: nat, src: Path)
    requires Tree(fs0) && Proper(inp) && k <= |inp.layout| && Unblocked(fs0, inp) && OnlyParentsMade(fs0, fs, inp, k)
    requires src in fs0.files
    ensures src !in fs.dirs
  {
    assert !AboveTarget(inp, k, src);
  }

  /** A plain file rename onto a free target. */
  ghost predicate MovesTo(fs: Fs, fs': Fs, src: Path, t: Path) {
    && t != [] && src in fs.files && src != t
    && fs'.files == (fs.files - {src})[t := fs.files[src]]
    && fs'.dirs == fs.dirs + Prefixes(Parent(t))
  }

  function Turn(inp: Input, index: map<Key, Path>, m: Moves, k: nat): Fs
    requires Proper(inp) && k < |inp.layout| && NonRoot(index)
  {
    PlaceOne(inp, index, m, inp.layout[k]).fs
  }

  /** The turn of entry k moves its source if that is still a file and the entry is not in place now. */
  predicate Goes(inp: Input, index: map<Key, Path>, fs: Fs, k: nat)
    requires Proper(inp) && k < |inp.layout|
  {
    && EntryKey(inp, inp.layout[k]) in index
    && Source(inp, index, k) in fs.files
    && !(At(inp, k) in fs.files && |fs.files[At(inp, k)]| == inp.layout[k].size)
  }

  lemma TurnShape(fs0: Fs, inp: Input, index: map<Key, Path>, m: Moves, k: nat)
    requires Situation(fs0, inp, index) && k < |inp.layout| && Kept(fs0, m.fs, inp, k)
    ensures NonRoot(index)
    ensures if Goes(inp, index, m.fs, k) then MovesTo(m.fs, Turn(inp, index, m, k), Source(inp, index, k), At(inp, k))
            else Turn(inp, index, m, k) == m.fs
  {
    var t, key := At(inp, k), EntryKey(inp, inp.layout[k]);
    TargetIsFree(fs0, m.fs, inp, k);
    if key in index {
      SourceIsNoDir(fs0, m.fs, inp, k, index[key]);
      MkdirTree(m.fs, Parent(t));
      SourceApart(fs0, inp, index, m.fs, k);
    }
  }

  /** A source at the entry's own target is that target in place. */
  lemma SourceApart(fs0: Fs, inp: Input, index: map<Key, Path>, fs: Fs, k: nat)
    requires Situation(fs0, inp, index) && k < |inp.layout| && LateTargets(fs0, fs, inp, k)
    ensures Goes(inp, index, fs, k) ==> Source(inp, index, k) != At(inp, k)
  {
    if EntryKey(inp, inp.layout[k]) in index && Source(inp, index, k) == At(inp, k) && At(inp, k) in fs.files {
      assert SameAt(fs0, fs, At(inp, k));
      assert KeyOf(fs0.files, Source(inp, index, k)) == EntryKey(inp, inp.layout[k]);
    }
  }

  lemma TurnKeeps(fs0: Fs, inp: Input, index: map<Key, Path>, m: Moves, k: nat)
    requires Situation(fs0, inp, index) && k < |inp.layout| && Kept(fs0, m.fs, inp, k)
    ensures NonRoot(index) && Kept(fs0, Turn(inp, index, m, k), inp, k + 1)
  {
    TurnShape(fs0, inp, index, m, k);
    PlaceOneTree(inp, index, m, inp.layout[k]);
    TurnKeepsShape(fs0, inp, index, m, k);
    TurnKeepsLate(fs0, inp, index, m, k);
  }

  lemma TurnKeepsShape(fs0: Fs, inp: Input, index: map<Key, Path>, m: Moves, k: nat)
    requires Situation(fs0, inp, index) && k < |inp.layout| && Kept(fs0, m.fs, inp, k)
    ensures NonRoot(index)
    ensures var fs := Turn(inp, index, m, k); OnlyTargetsAdded(fs0, fs, inp) && OnlyParentsMade(fs0, fs, inp, k + 1)
  {
    TurnShape(fs0, inp, index, m, k);
    var t, fs := At(inp, k), Turn(inp, index, m, k);
    assert t in LayoutPaths(inp);
    forall d | d in fs.dirs && d !in fs0.dirs
      ensures AboveTarget(inp, k + 1, d)
    {
      if d in m.fs.dirs {
        assert AboveTarget(inp, k, d);
      } else {
        assert StrictlyUnder(At(inp, k), d);
      }
    }
  }

  lemma TurnKeepsLate(fs0: Fs, inp: Input, index: map<Key, Path>, m: Moves, k: nat)
    requires Situation(fs0, inp, index) && k < |inp.layout| && Kept(fs0, m.fs, inp, k)
    ensures NonRoot(index) && LateTargets(fs0, Turn(inp, index, m, k), inp, k + 1)
  {
    TurnShape(fs0, inp, index, m, k);
    var fs := Turn(inp, index, m, k);
    forall e | k + 1 <= e < |inp.layout| && At(inp, e) in fs.files
      ensures SameAt(fs0, fs, At(inp, e))
    {
      assert At(inp, k) != At(inp, e);
      assert SameAt(fs0, m.fs, At(inp, e));
    }
  }

  /** The tree after the first k entries. */
  function Sofar(fs0: Fs, inp: Input, index: map<Key, Path>, k: nat): Moves
    requires Proper(inp) && NonRoot(index) && k <= |inp.layout|
  {
    PlaceAll(inp, index, Moves(fs0, {}, false), inp.layout[..k])
  }

  lemma SofarStep(fs0: Fs, inp: Input, index: map<Key, Path>, k: nat)
    requires Proper(inp) && NonRoot(index) && k < |inp.layout|
    ensures Sofar(fs0, inp, index, k + 1).fs == Turn(inp, index, Sofar(fs0, inp, index, k), k)
  {
    assert inp.layout[..k + 1][..k] == inp.layout[..k];
  }

  lemma {:induction false} SofarKept(fs0: Fs, inp: Input, index: map<Key, Path>, k: nat)
    requires Situation(fs0, inp, index) && k <= |inp.layout|
    ensures NonRoot(index) && Kept(fs0, Sofar(fs0, inp, index, k).fs, inp, k)
  {
    if k > 0 {
      SofarKept(fs0, inp, index, k - 1);
      SofarStep(fs0, inp, index, k - 1);
      TurnKeeps(fs0, inp, index, Sofar(fs0, inp, index, k - 1), k - 1);
    }
  }

  // ----- while nothing clashes -----------------------------------------------------------------------

  ghost predicate Given(fs0: Fs, inp: Input, index: map<Key, Path>, k: nat, p: Path)
    requires Proper(inp) && k <= |inp.layout|
  {
    exists i :: 0 <= i < k && Moving(fs0, inp, index, i) && p == At(inp, i)
  }

  ghost predicate Taken(fs0: Fs, inp: Input, index: map<Key, Path>, k: nat, p: Path)
    requires Proper(inp) && k <= |inp.layout|
  {
    exists i :: 0 <= i < k && Moving(fs0, inp, index, i) && p == Source(inp, index, i)
  }

  /** After k entries every moving one has its file, what was taken is gone, and the rest is as it was. */
  ghost predicate Exact(fs0: Fs, fs: Fs, inp: Input, index: map<Key, Path>, k: nat)
    requires Proper(inp) && k <= |inp.layout| && Sound(fs0, index)
  {
    AllGiven(fs0, fs, inp, index, k) && forall p :: RestAt(fs0, fs, inp, index, k, p)
  }

  /** An entry in place at the start is still in place at its turn; a moving one is not. */
  lemma TargetAtTurn(fs0: Fs, fs: Fs, inp: Input, index: map<Key, Path>, k: nat)
    requires Situation(fs0, inp, index) && k < |inp.layout|
    requires Exact(fs0, fs, inp, index, k) && NoClashBefore(fs0, inp, index, k)
    ensures !Given(fs0, inp, index, k, At(inp, k))
    ensures Settled(fs0, inp, k) ==> !Taken(fs0, inp, index, k, At(inp, k)) && SameAt(fs0, fs, At(inp, k))
    ensures Moving(fs0, inp, index, k) ==> !(At(inp, k) in fs.files && |fs.files[At(inp, k)]| == inp.layout[k].size)
  {
    var t := At(inp, k);
    assert !Given(fs0, inp, index, k, t);
    if Settled(fs0, inp, k) {
      forall i | 0 <= i < k && Moving(fs0, inp, index, i)
        ensures t != Source(inp, index, i)
      {
        assert !Clashes(fs0, inp, index, i);
      }
      assert !Taken(fs0, inp, index, k, t);
      assert RestAt(fs0, fs, inp, index, k, t);
    } else {
      assert RestAt(fs0, fs, inp, index, k, t);
    }
  }

  /** A moving entry that does not clash finds its source as it was. */
  lemma SourceAtTurn(fs0: Fs, fs: Fs, inp: Input, index: map<Key, Path>, k: nat)
    requires Situation(fs0, inp, index) && k < |inp.layout| && Exact(fs0, fs, inp, index, k)
    requires Moving(fs0, inp, index, k) && !Clashes(fs0, inp, index, k)
    ensures var src := Source(inp, index, k);
            && !Given(fs0, inp, index, k, src) && !Taken(fs0, inp, index, k, src)
            && Holds(fs, src, fs0.files[src])
  {
    var src := Source(inp, index, k);
    assert !Given(fs0, inp, index, k, src) && !Taken(fs0, inp, index, k, src);
    assert RestAt(fs0, fs, inp, index, k, src);
  }

  lemma GivenMore(fs0: Fs, inp: Input, index: map<Key, Path>, k: nat, p: Path)
    requires Proper(inp) && k < |inp.layout|
    ensures Given(fs0, inp, index, k + 1, p) <==>
              Given(fs0, inp, index, k, p) || (Moving(fs0, inp, index, k) && p == At(inp, k))
    ensures Taken(fs0, inp, index, k + 1, p) <==>
              Taken(fs0, inp, index, k, p) || (Moving(fs0, inp, index, k) && p == Source(inp, index, k))
  {
  }

  ghost predicate AllGiven(fs0: Fs, fs: Fs, inp: Input, index: map<Key, Path>, k: nat)
    requires Proper(inp) && k <= |inp.layout| && Sound(fs0, index)
  {
    forall i :: 0 <= i < k && Moving(fs0, inp, index, i) ==> Holds(fs, At(inp, i), fs0.files[Source(inp, index, i)])
  }

  lemma MoveKeepsGiven(fs0: Fs, fs: Fs, fs': Fs, inp: Input, index: map<Key, Path>, k: nat)
    requires Situation(fs0, inp, index) && k < |inp.layout| && AllGiven(fs0, fs, inp, index, k)
    requires Moving(fs0, inp, index, k) && !Given(fs0, inp, index, k, Source(inp, index, k))
    requires Holds(fs, Source(inp, index, k), fs0.files[Source(inp, index, k)])
    requires MovesTo(fs, fs', Source(inp, index, k), At(inp, k))
    ensures AllGiven(fs0, fs', inp, index, k + 1)
  {
    forall i | 0 <= i < k + 1 && Moving(fs0, inp, index, i)
      ensures Holds(fs', At(inp, i), fs0.files[Source(inp, index, i)])
    {
      if i < k {
        assert At(inp, i) != At(inp, k);
        assert Given(fs0, inp, index, k, At(inp, i));
        assert Holds(fs, At(inp, i), fs0.files[Source(inp, index, i)]);
      }
    }
  }

  /** What the moves have not written: gone if it was taken, as it was if not. */
  ghost predicate RestAt(fs0: Fs, fs: Fs, inp: Input, index: map<Key, Path>, k: nat, p: Path)
    requires Proper(inp) && k <= |inp.layout|
  {
    !Given(fs0, inp, index, k, p) ==> if Taken(fs0, inp, index, k, p) then p !in fs.files else SameAt(fs0, fs, p)
  }

  lemma MoveKeepsRest(fs0: Fs, fs: Fs, fs': Fs, inp: Input, index: map<Key, Path>, k: nat, p: Path)
    requires Proper(inp) && k < |inp.layout| && Moving(fs0, inp, index, k) && RestAt(fs0, fs, inp, index, k, p)
    requires MovesTo(fs, fs', Source(inp, index, k), At(inp, k))
    ensures RestAt(fs0, fs', inp, index, k + 1, p)
  {
    GivenMore(fs0, inp, index, k, p);
  }

  lemma MoveStaysExact(fs0: Fs, fs: Fs, fs': Fs, inp: Input, index: map<Key, Path>, k: nat)
    requires Situation(fs0, inp, index) && k < |inp.layout| && Exact(fs0, fs, inp, index, k)
    requires Moving(fs0, inp, index, k) && !Clashes(fs0, inp, index, k)
    requires MovesTo(fs, fs', Source(inp, index, k), At(inp, k))
    ensures Exact(fs0, fs', inp, index, k + 1)
  {
    SourceAtTurn(fs0, fs, inp, index, k);
    MoveKeepsGiven(fs0, fs, fs', inp, index, k);
    var next := k + 1;
    forall p
      ensures RestAt(fs0, fs', inp, index, next, p)
    {
      assert RestAt(fs0, fs, inp, index, k, p);
      MoveKeepsRest(fs0, fs, fs', inp, index, k, p);
    }
  }

  lemma RestStaysExact(fs0: Fs, fs: Fs, inp: Input, index: map<Key, Path>, k: nat)
    requires Situation(fs0, inp, index) && k < |inp.layout| && Exact(fs0, fs, inp, index, k)
    requires !Moving(fs0, inp, index, k)
    ensures Exact(fs0, fs, inp, index, k + 1)
  {
    var next := k + 1;
    forall p
      ensures RestAt(fs0, fs, inp, index, next, p)
    {
      assert RestAt(fs0, fs, inp, index, k, p);
      RestKeepsRest(fs0, fs, inp, index, k, p);
    }
  }

  lemma RestKeepsRest(fs0: Fs, fs: Fs, inp: Input, index: map<Key, Path>, k: nat, p: Path)
    requires Proper(inp) && k < |inp.layout| && !Moving(fs0, inp, index, k) && RestAt(fs0, fs, inp, index, k, p)
    ensures RestAt(fs0, fs, inp, index, k + 1, p)
  {
    GivenMore(fs0, inp, index, k, p);
  }

  lemma {:induction false} SofarExact(fs0: Fs, inp: Input, index: map<Key, Path>, k: nat)
    requires Situation(fs0, inp, index) && k <= |inp.layout| && NoClashBefore(fs0, inp, index, k)
    ensures NonRoot(index) && Exact(fs0, Sofar(fs0, inp, index, k).fs, inp, index, k)
  {
    if k == 0 {
      assert forall p :: RestAt(fs0, fs0, inp, index, 0, p);
    } else {
      SofarKept(fs0, inp, index, k - 1);
      SofarExact(fs0, inp, index, k - 1);
      SofarStep(fs0, inp, index, k - 1);
      ExactTurn(fs0, inp, index, Sofar(fs0, inp, index, k - 1), k - 1);
    }
  }

  lemma ExactTurn(fs0: Fs, inp: Input, index: map<Key, Path>, m: Moves, k: nat)
    requires Situation(fs0, inp, index) && k < |inp.layout| && NoClashBefore(fs0, inp, index, k + 1)
    requires Kept(fs0, m.fs, inp, k) && Exact(fs0, m.fs, inp, index, k)
    ensures NonRoot(index) && Exact(fs0, Turn(inp, index, m, k), inp, index, k + 1)
  {
    TurnShape(fs0, inp, index, m, k);
    TargetAtTurn(fs0, m.fs, inp, index, k);
    if Moving(fs0, inp, index, k) {
      assert !Clashes(fs0, inp, index, k);
      SourceAtTurn(fs0, m.fs, inp, index, k);
      MoveStaysExact(fs0, m.fs, Turn(inp, index, m, k), inp, index, k);
    } else {
      RestStaysExact(fs0, m.fs, inp, index, k);
    }
  }

  // ----- after a clash ---------------------------------------------------------------------------------

  /** Nothing of this size is at p. */
  predicate Misses(fs: Fs, p: Path, size: nat) {
    p in fs.files ==> |fs.files[p]| != size
  }

  /** Entry x had its turn before, or has a source that lies at its own target, now gone. */
  predicate NeverWritten(inp: Input, index: map<Key, Path>, fs: Fs, x: nat, k: nat)
    requires Proper(inp) && x < |inp.layout|
  {
    x < k || (At(inp, x) !in fs.files && EntryKey(inp, inp.layout[x]) in index && Source(inp, index, x) == At(inp, x))
  }

  /** Entry x has no file of its size after k turns, and will not get one. */
  predicate Lacks(inp: Input, index: map<Key, Path>, fs: Fs, x: nat, k: nat)
    requires Proper(inp) && x < |inp.layout|
  {
    Misses(fs, At(inp, x), inp.layout[x].size) && NeverWritten(inp, index, fs, x, k)
  }

  /** Only its own entry writes a target. */
  lemma LackingTurn(fs0: Fs, inp: Input, index: map<Key, Path>, m: Moves, x: nat, k: nat)
    requires Situation(fs0, inp, index) && x < |inp.layout| && k < |inp.layout| && Kept(fs0, m.fs, inp, k)
    requires Lacks(inp, index, m.fs, x, k)
    ensures NonRoot(index) && Lacks(inp, index, Turn(inp, index, m, k), x, k + 1)
  {
    TurnShape(fs0, inp, index, m, k);
    if k != x {
      assert At(inp, k) != At(inp, x);
    }
  }

  lemma LackingSofar(fs0: Fs, inp: Input, index: map<Key, Path>, x: nat, k: nat)
    requires Situation(fs0, inp, index) && x < |inp.layout| && k < |inp.layout| && NonRoot(index)
    requires Lacks(inp, index, Sofar(fs0, inp, index, k).fs, x, k)
    ensures Lacks(inp, index, Sofar(fs0, inp, index, k + 1).fs, x, k + 1)
  {
    SofarKept(fs0, inp, index, k);
    SofarStep(fs0, inp, index, k);
    LackingTurn(fs0, inp, index, Sofar(fs0, inp, index, k), x, k);
  }

  lemma {:induction false} StaysLacking(fs0: Fs, inp: Input, index: map<Key, Path>, x: nat, from: nat, k: nat)
    requires Situation(fs0, inp, index) && x < |inp.layout| && from <= k <= |inp.layout| && NonRoot(index)
    requires Lacks(inp, index, Sofar(fs0, inp, index, from).fs, x, from)
    ensures Lacks(inp, index, Sofar(fs0, inp, index, k).fs, x, k)
    decreases k - from
  {
    if from < k {
      LackingSofar(fs0, inp, index, x, from);
      StaysLacking(fs0, inp, index, x, from + 1, k);
    }
  }

  /** The clashing entry takes a file that is in place for x. */
  lemma ClashTakesSettled(fs0: Fs, inp: Input, index: map<Key, Path>, m: Moves, j: nat, x: nat)
    requires Situation(fs0, inp, index) && j < |inp.layout| && NoClashBefore(fs0, inp, index, j)
    requires Kept(fs0, m.fs, inp, j) && Exact(fs0, m.fs, inp, index, j) && Moving(fs0, inp, index, j)
    requires x < |inp.layout| && Settled(fs0, inp, x) && Source(inp, index, j) == At(inp, x)
    ensures NonRoot(index)
    ensures At(inp, x) !in Turn(inp, index, m, j).files && NeverWritten(inp, index, Turn(inp, index, m, j), x, j + 1)
  {
    TurnShape(fs0, inp, index, m, j);
    TargetAtTurn(fs0, m.fs, inp, index, j);
    SettledIsTaken(fs0, inp, index, m.fs, j, x);
  }

  /** The clashing entry takes the file that the earlier entry x was given. */
  lemma ClashTakesGiven(fs0: Fs, inp: Input, index: map<Key, Path>, m: Moves, j: nat, x: nat)
    requires Situation(fs0, inp, index) && j < |inp.layout| && NoClashBefore(fs0, inp, index, j)
    requires Kept(fs0, m.fs, inp, j) && Exact(fs0, m.fs, inp, index, j) && Moving(fs0, inp, index, j)
    requires x < j && Moving(fs0, inp, index, x) && Source(inp, index, j) == At(inp, x)
    ensures NonRoot(index)
    ensures At(inp, x) !in Turn(inp, index, m, j).files
  {
    TurnShape(fs0, inp, index, m, j);
    TargetAtTurn(fs0, m.fs, inp, index, j);
    assert Holds(m.fs, At(inp, x), fs0.files[Source(inp, index, x)]);
  }

  /** The clashing entry finds its file gone. */
  lemma ClashFindsNothing(fs0: Fs, inp: Input, index: map<Key, Path>, m: Moves, j: nat)
    requires Situation(fs0, inp, index) && j < |inp.layout| && NoClashBefore(fs0, inp, index, j)
    requires Kept(fs0, m.fs, inp, j) && Exact(fs0, m.fs, inp, index, j) && Moving(fs0, inp, index, j)
    requires !Given(fs0, inp, index, j, Source(inp, index, j)) && Taken(fs0, inp, index, j, Source(inp, index, j))
    ensures NonRoot(index)
    ensures Misses(Turn(inp, index, m, j), At(inp, j), inp.layout[j].size)
  {
    TurnShape(fs0, inp, index, m, j);
    TargetAtTurn(fs0, m.fs, inp, index, j);
    assert RestAt(fs0, m.fs, inp, index, j, Source(inp, index, j));
  }

  /** The first entry that clashes leaves some entry without its file. */
  lemma ClashTurn(fs0: Fs, inp: Input, index: map<Key, Path>, m: Moves, j: nat) returns (x: nat)
    requires Situation(fs0, inp, index) && j < |inp.layout| && NoClashBefore(fs0, inp, index, j)
    requires Kept(fs0, m.fs, inp, j) && Exact(fs0, m.fs, inp, index, j)
    requires Moving(fs0, inp, index, j) && Clashes(fs0, inp, index, j)
    ensures NonRoot(index)
    ensures x < |inp.layout| && (Settled(fs0, inp, x) || Moving(fs0, inp, index, x))
    ensures Lacks(inp, index, Turn(inp, index, m, j), x, j + 1)
  {
    var src := Source(inp, index, j);
    if e :| 0 <= e < |inp.layout| && Settled(fs0, inp, e) && src == At(inp, e) {
      x := e;
      ClashTakesSettled(fs0, inp, index, m, j, x);
    } else if i :| 0 <= i < j && Moving(fs0, inp, index, i) && src == At(inp, i) {
      x := i;
      ClashTakesGiven(fs0, inp, index, m, j, x);
    } else {
      x := j;
      ClashFindsNothing(fs0, inp, index, m, j);
    }
  }

  lemma ClashLoses(fs0: Fs, inp: Input, index: map<Key, Path>, j: nat) returns (x: nat)
    requires Situation(fs0, inp, index) && j < |inp.layout| && NoClashBefore(fs0, inp, index, j)
    requires Moving(fs0, inp, index, j) && Clashes(fs0, inp, index, j)
    ensures NonRoot(index)
    ensures x < |inp.layout| && (Settled(fs0, inp, x) || Moving(fs0, inp, index, x))
    ensures Misses(Sofar(fs0, inp, index, |inp.layout|).fs, At(inp, x), inp.layout[x].size)
  {
    SofarKept(fs0, inp, index, j);
    SofarExact(fs0, inp, index, j);
    SofarStep(fs0, inp, index, j);
    x := ClashTurn(fs0, inp, index, Sofar(fs0, inp, index, j), j);
    StaysLacking(fs0, inp, index, x, j + 1, |inp.layout|);
  }

  /** A file in place that entry j takes is there at j's turn, and has its own entry's key. */
  lemma SettledIsTaken(fs0: Fs, inp: Input, index: map<Key, Path>, fs: Fs, j: nat, e: nat)
    requires Situation(fs0, inp, index) && j < |inp.layout| && e < |inp.layout| && Exact(fs0, fs, inp, index, j)
    requires NoClashBefore(fs0, inp, index, j) && Moving(fs0, inp, index, j)
    requires Settled(fs0, inp, e) && Source(inp, index, j) == At(inp, e)
    ensures At(inp, e) in fs.files
    ensures EntryKey(inp, inp.layout[e]) in index && Source(inp, index, e) == At(inp, e)
  {
    var t := At(inp, e);
    forall i | 0 <= i < j && Moving(fs0, inp, index, i)
      ensures t != At(inp, i) && t != Source(inp, index, i)
    {
      assert !Clashes(fs0, inp, index, i);
      assert i != e;
    }
    assert !Given(fs0, inp, index, j, t) && !Taken(fs0, inp, index, j, t);
    assert RestAt(fs0, fs, inp, index, j, t);
    assert KeyOf(fs0.files, t) == EntryKey(inp, inp.layout[j]) == EntryKey(inp, inp.layout[e]);
  }

  // ----- the whole pass -------------------------------------------------------------------------------

  ghost predicate Matches(fs: Fs, inp: Input, e: Entry, p: Path)
    requires e.rel != []
  {
    p in fs.files && p != [] && StrictlyUnder(p, inp.local) && KeyOf(fs.files, p) == EntryKey(inp, e)
  }

  /** In place it stays, and matched it ends with the content of a matching file. */
  ghost predicate PlacedWell(fs: Fs, inp: Input, end: Fs, i: nat)
    requires Proper(inp) && i < |inp.layout|
  {
    if Settled(fs, inp, i) then Holds(end, At(inp, i), fs.files[At(inp, i)])
    else (exists p :: Matches(fs, inp, inp.layout[i], p)) ==>
           exists p :: Matches(fs, inp, inp.layout[i], p) && Holds(end, At(inp, i), fs.files[p])
  }

  function IndexIn(fs: Fs, ch: Choices): map<Key, Path>
    requires AreFiles(fs.files, ch.listing)
  {
    IndexOf(fs.files, ch.listing)
  }

  /** The later passes leave every target as the moves left it. */
  lemma TargetsSurvive(fs: Fs, inp: Input, ch: Choices, i: nat)
    requires Runs(fs, inp, ch) && i < |inp.layout|
    ensures NonRoot(IndexIn(fs, ch))
    ensures SameAt(Sofar(fs, inp, IndexIn(fs, ch), |inp.layout|).fs, Final(fs, inp, ch), At(inp, i))
  {
    IndexFacts(fs.files, ch.listing);
    Stages(fs, inp, ch);
    assert inp.layout[..|inp.layout|] == inp.layout;
    assert At(inp, i) in LayoutPaths(inp);
  }

  lemma IndexSituation(fs: Fs, inp: Input, ch: Choices)
    requires Runs(fs, inp, ch) && Unblocked(fs, inp)
    ensures Situation(fs, inp, IndexIn(fs, ch))
  {
    IndexFacts(fs.files, ch.listing);
  }

  lemma MatchedIffIndexed(fs: Fs, inp: Input, ch: Choices, e: Entry)
    requires Runs(fs, inp, ch) && e.rel != []
    ensures (exists p :: Matches(fs, inp, e, p)) <==> EntryKey(inp, e) in IndexIn(fs, ch)
    ensures EntryKey(inp, e) in IndexIn(fs, ch) ==> Matches(fs, inp, e, IndexIn(fs, ch)[EntryKey(inp, e)])
  {
    var index := IndexIn(fs, ch);
    IndexFacts(fs.files, ch.listing);
    if p :| Matches(fs, inp, e, p) {
      assert p in ch.listing;
    }
    if EntryKey(inp, e) in index {
      var i :| 0 <= i < |ch.listing| && ch.listing[i] == index[EntryKey(inp, e)];
      assert Matches(fs, inp, e, index[EntryKey(inp, e)]);
    }
  }

  lemma NoClashPlaces(fs: Fs, inp: Input, ch: Choices, i: nat)
    requires Runs(fs, inp, ch) && Unblocked(fs, inp) && i < |inp.layout|
    requires NoClashBefore(fs, inp, IndexIn(fs, ch), |inp.layout|)
    ensures PlacedWell(fs, inp, Final(fs, inp, ch), i)
  {
    var index, n, t := IndexIn(fs, ch), |inp.layout|, At(inp, i);
    IndexSituation(fs, inp, ch);
    SofarExact(fs, inp, index, n);
    TargetsSurvive(fs, inp, ch, i);
    MatchedIffIndexed(fs, inp, ch, inp.layout[i]);
    if Settled(fs, inp, i) {
      forall x | 0 <= x < n && Moving(fs, inp, index, x)
        ensures t != At(inp, x) && t != Source(inp, index, x)
      {
        assert !Clashes(fs, inp, index, x);
        assert x != i;
      }
      assert !Given(fs, inp, index, n, t) && !Taken(fs, inp, index, n, t);
      assert RestAt(fs, Sofar(fs, inp, index, n).fs, inp, index, n, t);
    } else if EntryKey(inp, inp.layout[i]) in index {
      assert Moving(fs, inp, index, i);
    }
  }

  /** An entry in place or moving whose target misses its size is not placed. */
  lemma MissingIsNotPlaced(fs: Fs, inp: Input, ch: Choices, x: nat)
    requires Runs(fs, inp, ch) && Unblocked(fs, inp) && x < |inp.layout|
    requires Settled(fs, inp, x) || Moving(fs, inp, IndexIn(fs, ch), x)
    requires NonRoot(IndexIn(fs, ch))
    requires Misses(Sofar(fs, inp, IndexIn(fs, ch), |inp.layout|).fs, At(inp, x), inp.layout[x].size)
    ensures !PlacedWell(fs, inp, Final(fs, inp, ch), x)
  {
    TargetsSurvive(fs, inp, ch, x);
    MatchedIffIndexed(fs, inp, ch, inp.layout[x]);
  }

  lemma {:induction false} FirstClash(fs0: Fs, inp: Input, index: map<Key, Path>, k: nat) returns (j: nat)
    requires Proper(inp) && k <= |inp.layout| && !NoClashBefore(fs0, inp, index, k)
    ensures j < k && NoClashBefore(fs0, inp, index, j) && Moving(fs0, inp, index, j) && Clashes(fs0, inp, index, j)
  {
    if NoClashBefore(fs0, inp, index, k - 1) {
      j := k - 1;
    } else {
      j := FirstClash(fs0, inp, index, k - 1);
    }
  }

  /**
   Main result: every entry that was in place or matched a local file ends placed if and only
   if no move takes a file that another entry has in place, has been given, or has taken.
   */
  lemma AllPlacedIff(fs: Fs, inp: Input, ch: Choices)
    requires Runs(fs, inp, ch) && Unblocked(fs, inp)
    ensures (forall i :: 0 <= i < |inp.layout| ==> PlacedWell(fs, inp, Final(fs, inp, ch), i)) <==>
              NoClashBefore(fs, inp, IndexIn(fs, ch), |inp.layout|)
  {
    var index := IndexIn(fs, ch);
    if NoClashBefore(fs, inp, index, |inp.layout|) {
      forall i | 0 <= i < |inp.layout|
        ensures PlacedWell(fs, inp, Final(fs, inp, ch), i)
      {
        NoClashPlaces(fs, inp, ch, i);
      }
    } else {
      IndexSituation(fs, inp, ch);
      var j := FirstClash(fs, inp, index, |inp.layout|);
      var x := ClashLoses(fs, inp, index, j);
      MissingIsNotPlaced(fs, inp, ch, x);
    }
  }

  // ----- distinct basenames ---------------------------------------------------------------------------

  ghost predicate DistinctNames(inp: Input)
    requires Proper(inp)
  {
    forall i, j :: 0 <= i < j < |inp.layout| ==> Name(At(inp, i)) != Name(At(inp, j))
  }

  /** A source has its target's name, so entries with distinct names never clash. */
  lemma NamesNeverClash(fs: Fs, inp: Input, index: map<Key, Path>)
    requires Situation(fs, inp, index) && DistinctNames(inp)
    ensures NoClashBefore(fs, inp, index, |inp.layout|)
  {
    forall i | 0 <= i < |inp.layout| && Moving(fs, inp, index, i)
      ensures !Clashes(fs, inp, index, i)
    {
      assert KeyOf(fs.files, Source(inp, index, i)) == EntryKey(inp, inp.layout[i]);
      forall e | 0 <= e < |inp.layout| && Moving(fs, inp, index, e)
        ensures Name(Source(inp, index, e)) == Name(At(inp, e))
      {
        assert KeyOf(fs.files, Source(inp, index, e)) == EntryKey(inp, inp.layout[e]);
      }
      SettledElsewhere(fs, inp, index, i);
    }
  }

  lemma SettledElsewhere(fs: Fs, inp: Input, index: map<Key, Path>, i: nat)
    requires Situation(fs, inp, index) && DistinctNames(inp) && i < |inp.layout| && Moving(fs, inp, index, i)
    ensures forall e :: 0 <= e < |inp.layout| && Settled(fs, inp, e) ==> Source(inp, index, i) != At(inp, e)
  {
    forall e | 0 <= e < |inp.layout| && Settled(fs, inp, e)
      ensures Source(inp, index, i) != At(inp, e)
    {
      assert KeyOf(fs.files, Source(inp, index, i)) == EntryKey(inp, inp.layout[i]);
      assert e != i;
      assert Name(At(inp, e)) != Name(At(inp, i));
    }
  }

  /**
   Main result: with distinct basenames every entry is placed, and a target that was neither
   in place nor matched is as it was.
   */
  lemma EntriesArePlaced(fs: Fs, inp: Input, ch: Choices, i: nat)
    requires Runs(fs, inp, ch) && Unblocked(fs, inp) && DistinctNames(inp) && i < |inp.layout|
    ensures PlacedWell(fs, inp, Final(fs, inp, ch), i)
    ensures !Settled(fs, inp, i) && (forall p :: !Matches(fs, inp, inp.layout[i], p)) ==>
              SameAt(fs, Final(fs, inp, ch), At(inp, i))
  {
    var index, n := IndexIn(fs, ch), |inp.layout|;
    IndexSituation(fs, inp, ch);
    NamesNeverClash(fs, inp, index);
    NoClashPlaces(fs, inp, ch, i);
    MatchedIffIndexed(fs, inp, ch, inp.layout[i]);
    TargetsSurvive(fs, inp, ch, i);
    if !Settled(fs, inp, i) && EntryKey(inp, inp.layout[i]) !in index {
      UnmatchedUntouched(fs, inp, index, i);
    }
  }

  lemma UnmatchedUntouched(fs: Fs, inp: Input, index: map<Key, Path>, i: nat)
    requires Situation(fs, inp, index) && DistinctNames(inp) && NoClashBefore(fs, inp, index, |inp.layout|)
    requires i < |inp.layout| && !Moving(fs, inp, index, i)
    ensures NonRoot(index) && SameAt(fs, Sofar(fs, inp, index, |inp.layout|).fs, At(inp, i))
  {
    var n := |inp.layout|;
    SofarExact(fs, inp, index, n);
    forall x | 0 <= x < n && Moving(fs, inp, index, x)
      ensures At(inp, i) != At(inp, x) && At(inp, i) != Source(inp, index, x)
    {
      assert KeyOf(fs.files, Source(inp, index, x)) == EntryKey(inp, inp.layout[x]);
      assert Name(At(inp, i)) != Name(At(inp, x));
    }
    assert !Given(fs, inp, index, n, At(inp, i)) && !Taken(fs, inp, index, n, At(inp, i));
    assert RestAt(fs, Sofar(fs, inp, index, n).fs, inp, index, n, At(inp, i));
  }

  // ----- the answer -------------------------------------------------------------------------------------

  /** A tracked path outside the layout that is a file. */
  ghost predicate HasStale(fs: Fs, inp: Input) {
    exists p :: p in inp.tracked && p in fs.files && forall i :: 0 <= i < |inp.layout| ==> p != At(inp, i)
  }

  ghost predicate HasMoving(fs: Fs, inp: Input, index: map<Key, Path>, k: nat)
    requires Proper(inp) && k <= |inp.layout|
  {
    exists i :: 0 <= i < k && Moving(fs, inp, index, i)
  }

  lemma SofarMovedStep(fs0: Fs, inp: Input, index: map<Key, Path>, k: nat)
    requires Situation(fs0, inp, index) && k < |inp.layout|
    ensures NonRoot(index)
    ensures Sofar(fs0, inp, index, k + 1).moved <==>
              Sofar(fs0, inp, index, k).moved || Goes(inp, index, Sofar(fs0, inp, index, k).fs, k)
  {
    var m := Sofar(fs0, inp, index, k);
    SofarKept(fs0, inp, index, k);
    assert inp.layout[..k + 1][..k] == inp.layout[..k];
    TargetIsFree(fs0, m.fs, inp, k);
    if EntryKey(inp, inp.layout[k]) in index {
      SourceIsNoDir(fs0, m.fs, inp, k, Source(inp, index, k));
      MkdirTree(m.fs, Parent(At(inp, k)));
      SourceApart(fs0, inp, index, m.fs, k);
    }
  }

  /** While nothing clashes the pass has moved something exactly when some entry had something to move. */
  lemma {:induction false} SofarMovedIff(fs0: Fs, inp: Input, index: map<Key, Path>, k: nat)
    requires Situation(fs0, inp, index) && k <= |inp.layout| && NoClashBefore(fs0, inp, index, k)
    ensures NonRoot(index) && (Sofar(fs0, inp, index, k).moved <==> HasMoving(fs0, inp, index, k))
  {
    if k > 0 {
      SofarMovedIff(fs0, inp, index, k - 1);
      SofarExact(fs0, inp, index, k - 1);
      SofarMovedStep(fs0, inp, index, k - 1);
      GoesIffMoving(fs0, inp, index, k - 1);
    }
  }

  lemma GoesIffMoving(fs0: Fs, inp: Input, index: map<Key, Path>, k: nat)
    requires Situation(fs0, inp, index) && k < |inp.layout| && NoClashBefore(fs0, inp, index, k + 1)
    ensures NonRoot(index)
    ensures Goes(inp, index, Sofar(fs0, inp, index, k).fs, k) <==> Moving(fs0, inp, index, k)
  {
    var fs := Sofar(fs0, inp, index, k).fs;
    SofarExact(fs0, inp, index, k);
    TargetAtTurn(fs0, fs, inp, index, k);
    if Moving(fs0, inp, index, k) {
      assert !Clashes(fs0, inp, index, k);
      SourceAtTurn(fs0, fs, inp, index, k);
    }
  }

  /** Where nothing was moved the files are those of the start. */
  lemma AnswerIff(fs: Fs, inp: Input, ch: Choices)
    requires Runs(fs, inp, ch) && Unblocked(fs, inp) && NoClashBefore(fs, inp, IndexIn(fs, ch), |inp.layout|)
    ensures Recheck(fs, inp, ch) <==> HasMoving(fs, inp, IndexIn(fs, ch), |inp.layout|) || HasStale(fs, inp)
  {
    var index, n := IndexIn(fs, ch), |inp.layout|;
    IndexSituation(fs, inp, ch);
    SofarMovedIff(fs, inp, index, n);
    assert inp.layout[..n] == inp.layout;
    if !HasMoving(fs, inp, index, n) {
      PlaceAllUnmoved(inp, index, Moves(fs, {}, false), inp.layout);
      StaleIff(fs, inp);
    }
  }

  lemma StaleIff(fs: Fs, inp: Input)
    requires Proper(inp)
    ensures HasStale(fs, inp) <==> fs.files.Keys * Stale(inp) != {}
  {
    if p :| p in inp.tracked && p in fs.files && forall i :: 0 <= i < |inp.layout| ==> p != At(inp, i) {
      forall i | 0 <= i < |inp.layout|
        ensures p != Target(inp, inp.layout[i])
      {
        assert p != At(inp, i);
      }
      assert p in fs.files.Keys * Stale(inp);
    }
    if p :| p in fs.files.Keys * Stale(inp) {
      forall i | 0 <= i < |inp.layout|
        ensures p != At(inp, i)
      {
        assert At(inp, i) in LayoutPaths(inp);
      }
    }
  }

  /** Some entry is not in place and matches a local file. */
  ghost predicate NeedsMove(fs: Fs, inp: Input)
    requires Proper(inp)
  {
    exists i :: 0 <= i < |inp.layout| && !Settled(fs, inp, i) && exists p :: Matches(fs, inp, inp.layout[i], p)
  }

  /**
   Main result: with distinct basenames a recheck is asked for if and only if some entry is
   not in place and matches a local file, or a tracked path outside the layout is a file.
   */
  lemma RecheckIff(fs: Fs, inp: Input, ch: Choices)
    requires Runs(fs, inp, ch) && Unblocked(fs, inp) && DistinctNames(inp)
    ensures Recheck(fs, inp, ch) <==> NeedsMove(fs, inp) || HasStale(fs, inp)
  {
    var index, n := IndexIn(fs, ch), |inp.layout|;
    IndexSituation(fs, inp, ch);
    NamesNeverClash(fs, inp, index);
    AnswerIff(fs, inp, ch);
    forall i | 0 <= i < n
      ensures Moving(fs, inp, index, i) <==>
                !Settled(fs, inp, i) && exists p :: Matches(fs, inp, inp.layout[i], p)
    {
      MatchedIffIndexed(fs, inp, ch, inp.layout[i]);
    }
  }

  /** In place, as a file of its size or a directory that reports its size. */
  ghost predicate Standing(fs: Fs, inp: Input, i: nat)
    requires i < |inp.layout|
  {
    Settled(fs, inp, i) || (At(inp, i) in fs.dirs && inp.dirSize(At(inp, i)) == inp.layout[i].size)
  }

  lemma {:induction false} NothingToDo(fs: Fs, inp: Input, ch: Choices, k: nat)
    requires Runs(fs, inp, ch) && k <= |inp.layout|
    requires forall i :: 0 <= i < |inp.layout| ==>
               Standing(fs, inp, i) || forall p :: !Matches(fs, inp, inp.layout[i], p)
    ensures NonRoot(IndexIn(fs, ch)) && Sofar(fs, inp, IndexIn(fs, ch), k) == Moves(fs, {}, false)
  {
    IndexFacts(fs.files, ch.listing);
    if k > 0 {
      NothingToDo(fs, inp, ch, k - 1);
      MatchedIffIndexed(fs, inp, ch, inp.layout[k - 1]);
      assert inp.layout[..k][..k - 1] == inp.layout[..k - 1];
    }
  }

  /**
   For any layout: when every entry is in place or unmatched and no stale file exists, the
   files are left alone and no recheck is asked for.
   */
  lemma NothingToDoNoRecheck(fs: Fs, inp: Input, ch: Choices)
    requires Runs(fs, inp, ch) && !HasStale(fs, inp)
    requires forall i :: 0 <= i < |inp.layout| ==>
               Standing(fs, inp, i) || forall p :: !Matches(fs, inp, inp.layout[i], p)
    ensures !Recheck(fs, inp, ch) && Final(fs, inp, ch).files == fs.files
  {
    NothingToDo(fs, inp, ch, |inp.layout|);
    assert inp.layout[..|inp.layout|] == inp.layout;
    StaleIff(fs, inp);
    NoRecheckNoChange(fs, inp, ch);
  }

  // ----- a clash ---------------------------------------------------------------------------------------

  /** A file "x" of size 2 in the root of share "s" and one of size 1 in its directory "c". */
  function CollidingTree(): Fs {
    Fs(map[["s", "x"] := "22", ["s", "c", "x"] := "1"], {[], ["s"], ["s", "c"]})
  }

  /** The layout wants the small one in the root and the large one in a new directory "b". */
  function CollidingInput(dirSize: Path -> nat): Input {
    Input(["s"], [], [Entry(["s", "x"], 1), Entry(["s", "b", "x"], 2)], {}, dirSize)
  }

  lemma CollidingTargets(dirSize: Path -> nat)
    ensures var inp := CollidingInput(dirSize);
            Proper(inp) && |inp.layout| == 2 && At(inp, 0) == ["s", "x"] && At(inp, 1) == ["s", "b", "x"]
  {
    assert [] + ["s", "x"] == ["s", "x"] && [] + ["s", "b", "x"] == ["s", "b", "x"];
  }

  lemma CollidingUnblocked(dirSize: Path -> nat)
    ensures Unblocked(CollidingTree(), CollidingInput(dirSize))
  {
    CollidingTargets(dirSize);
    assert ["s", "x"] != ["s", "b", "x"];
    assert ["s", "b", "x"][1] == "b" && ["s", "x"][1] == "x" && ["s", "c", "x"][1] == "c";
    assert ["s", "x"] !in CollidingTree().dirs && ["s", "b", "x"] !in CollidingTree().dirs;
  }

  /** Whatever the order of the listing, the index knows both files. */
  lemma CollidingSources(dirSize: Path -> nat, ch: Choices)
    requires Runs(CollidingTree(), CollidingInput(dirSize), ch)
    ensures var index := IndexIn(CollidingTree(), ch);
            && ("x", 1) in index && index[("x", 1)] == ["s", "c", "x"]
            && ("x", 2) in index && index[("x", 2)] == ["s", "x"]
  {
    var fs := CollidingTree();
    IndexFacts(fs.files, ch.listing);
    assert StrictlyUnder(["s", "c", "x"], ["s"]) && StrictlyUnder(["s", "x"], ["s"]);
    assert ["s", "c", "x"] in ch.listing && ["s", "x"] in ch.listing;
    assert KeyOf(fs.files, ["s", "c", "x"]) == ("x", 1) && KeyOf(fs.files, ["s", "x"]) == ("x", 2);
    var index := IndexIn(fs, ch);
    assert index[("x", 1)] in ch.listing && index[("x", 2)] in ch.listing;
  }

  /**
   Entries that share a basename: the first move overwrites the second entry's source, and
   the second takes the first one's result. For every run on this tree some entry that
   matched a local file is not placed.
   */
  lemma SharedBasenamesCollide(dirSize: Path -> nat, ch: Choices)
    requires Runs(CollidingTree(), CollidingInput(dirSize), ch)
    ensures var fs, inp := CollidingTree(), CollidingInput(dirSize);
            exists i :: 0 <= i < |inp.layout| && !PlacedWell(fs, inp, Final(fs, inp, ch), i)
  {
    var fs, inp := CollidingTree(), CollidingInput(dirSize);
    var index := IndexIn(fs, ch);
    CollidingTargets(dirSize);
    CollidingUnblocked(dirSize);
    CollidingSources(dirSize, ch);
    assert EntryKey(inp, inp.layout[0]) == ("x", 1) && EntryKey(inp, inp.layout[1]) == ("x", 2);
    assert !Settled(fs, inp, 0) && !Settled(fs, inp, 1);
    assert Moving(fs, inp, index, 0) && Moving(fs, inp, index, 1);
    assert Clashes(fs, inp, index, 1);
    AllPlacedIff(fs, inp, ch);
  }
}
