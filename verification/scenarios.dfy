/**
  The fixture scenarios of the package's tests, over a concrete environment.
  The fixture trees themselves are not part of this model; the layout below is
  one that meets every expectation the tests state:
  - tree1 holds `dir1/file1.txt` and `dir2/file2.txt` with equal contents,
  - tree2 holds `dir1/file1.txt` and `dir2/file1.txt` with equal contents,
  - tree3 holds `dir1/file1.txt` and `dir2/file1.txt` with different
    contents, the first equal to the files of tree1.
  Every walk succeeds, directories come before their entries, and the
  directories themselves are visited too.
*/
module Scenarios {
  import opened Wrappers
  import opened Doppler

  const Tree1: Path := "../tests/fixtures/tree1"
  const Tree2: Path := "../tests/fixtures/tree2"
  const Tree3: Path := "../tests/fixtures/tree3"

  const T1A: Path := "../tests/fixtures/tree1/dir1/file1.txt"
  const T1B: Path := "../tests/fixtures/tree1/dir2/file2.txt"
  const T2A: Path := "../tests/fixtures/tree2/dir1/file1.txt"
  const T2B: Path := "../tests/fixtures/tree2/dir2/file1.txt"
  const T3A: Path := "../tests/fixtures/tree3/dir1/file1.txt"
  const T3B: Path := "../tests/fixtures/tree3/dir2/file1.txt"

  function FixtureBase(p: Path): string {
    if p == T1B then "file2.txt" else "file1.txt"
  }

  function FixtureHash(p: Path): Result<string, Msg> {
    if p == T1A || p == T1B || p == T3A then Success("c1")
    else if p == T3B then Success("c2")
    else Success("c3")
  }

  /**
    A tree with two sub-directories of one file each, visited in walk order.
    Written as nested concatenations of one-element sequences, which keeps the
    proofs that take it apart cheap.
  */
  function TwoDirs(root: Path, a: Path, b: Path): seq<Visit> {
    [Visit(root, true)] + ([Visit(root + "/dir1", true)] + ([Visit(a, false)] + ([Visit(root + "/dir2", true)] + [Visit(b, false)])))
  }

  function FixtureWalk(root: Path): WalkOutcome {
    if root == Tree1 then WalkOutcome(TwoDirs(Tree1, T1A, T1B), None)
    else if root == Tree2 then WalkOutcome(TwoDirs(Tree2, T2A, T2B), None)
    else if root == Tree3 then WalkOutcome(TwoDirs(Tree3, T3A, T3B), None)
    else WalkOutcome([], None)
  }

  const Fixtures := Env(
    p => AbsOutcome(p, None),
    p => p,
    FixtureBase,
    FixtureHash,
    FixtureWalk)

  const Plain := NewScanner(false, false, false)

  /** With both checks on and relative paths, a file whose hash succeeds is classified by name, then by content. */
  lemma VisitPlainFile(env: Env, s: Scanner, p: Path, h: string)
    requires s.opts == Plain.opts && env.toSlash(p) == p && env.hashFile(p) == Success(h)
    ensures VisitFile(env, s, Visit(p, false)) == Classify(Classify(s, ByName, env.base(p), p), ByHash, h, p)
  {
    assert NormalizedPath(env, s.opts, p) == p;
    assert RecordAbsError(env, s, p) == s;
  }

  lemma FoldDir(env: Env, s: Scanner, d: Visit, rest: seq<Visit>)
    requires d.isDir
    ensures FoldVisits(env, s, [d] + rest) == FoldVisits(env, s, rest)
  {
    assert ([d] + rest)[1..] == rest;
  }

  lemma FoldFile(env: Env, s: Scanner, v: Visit, rest: seq<Visit>)
    ensures FoldVisits(env, s, [v] + rest) == FoldVisits(env, VisitFile(env, s, v), rest)
  {
    assert ([v] + rest)[1..] == rest;
  }

  /** The first directory and its file. */
  lemma WalkFirstDir(env: Env, s: Scanner, root: Path, a: Path, b: Path)
    ensures FoldVisits(env, s, TwoDirs(root, a, b))
            == FoldVisits(env, VisitFile(env, s, Visit(a, false)), [Visit(root + "/dir2", true)] + [Visit(b, false)])
  {
    var d1, d2 := Visit(root + "/dir1", true), Visit(root + "/dir2", true);
    var va, vb := Visit(a, false), Visit(b, false);
    FoldDir(env, s, Visit(root, true), [d1] + ([va] + ([d2] + [vb])));
    FoldDir(env, s, d1, [va] + ([d2] + [vb]));
    FoldFile(env, s, va, [d2] + [vb]);
  }

  /** The second directory and its file. */
  lemma WalkSecondDir(env: Env, s: Scanner, d: Path, b: Path)
    ensures FoldVisits(env, s, [Visit(d, true)] + [Visit(b, false)]) == VisitFile(env, s, Visit(b, false))
  {
    var vb := Visit(b, false);
    FoldDir(env, s, Visit(d, true), [vb]);
    FoldFile(env, s, vb, []);
    assert [vb] + [] == [vb];
  }

  /** A walk of a two-directory tree classifies its two files in order and nothing else. */
  lemma WalkTwoDirs(env: Env, s: Scanner, root: Path, a: Path, b: Path)
    ensures FoldVisits(env, s, TwoDirs(root, a, b))
            == VisitFile(env, VisitFile(env, s, Visit(a, false)), Visit(b, false))
  {
    WalkFirstDir(env, s, root, a, b);
    WalkSecondDir(env, VisitFile(env, s, Visit(a, false)), root + "/dir2", b);
  }

  lemma NameNew(s: Scanner, key: string, w: Path)
    requires key !in s.nameMap
    ensures Classify(s, ByName, key, w) == s.(nameMap := s.nameMap[key := w])
  {
  }

  lemma HashNew(s: Scanner, key: string, w: Path)
    requires key !in s.hashMap
    ensures Classify(s, ByHash, key, w) == s.(hashMap := s.hashMap[key := w])
  {
  }

  lemma NameRepeat(s: Scanner, key: string, w: Path, first: Path, d: Duplicates)
    requires key in s.nameMap && s.nameMap[key] == first && s.RecordOf(first) == d
    ensures Classify(s, ByName, key, w)
            == s.(duplicateMap := s.duplicateMap[first := Duplicates(d.nameDuplicates + [w], d.hashDuplicates)])
  {
  }

  lemma HashRepeat(s: Scanner, key: string, w: Path, first: Path, d: Duplicates)
    requires key in s.hashMap && s.hashMap[key] == first && s.RecordOf(first) == d
    ensures Classify(s, ByHash, key, w)
            == s.(duplicateMap := s.duplicateMap[first := Duplicates(d.nameDuplicates, d.hashDuplicates + [w])])
  {
  }

  /** The state after a first file `a` with name `n` and content `h`, from a new scanner. */
  function FirstFile(a: Path, n: string, h: string): Scanner {
    Scanner(Plain.opts, map[], map[], map[n := a], map[h := a])
  }

  lemma VisitFirst(env: Env, a: Path, n: string, h: string)
    requires env.toSlash(a) == a && env.base(a) == n && env.hashFile(a) == Success(h)
    ensures VisitFile(env, Plain, Visit(a, false)) == FirstFile(a, n, h)
  {
    VisitPlainFile(env, Plain, a, h);
    NameNew(Plain, n, a);
    HashNew(Plain.(nameMap := map[n := a]), h, a);
  }

  /** Second file: another name, same content. */
  lemma VisitSameContent(env: Env, a: Path, b: Path, n: string, m: string, h: string)
    requires env.toSlash(b) == b && env.base(b) == m && env.hashFile(b) == Success(h) && m != n
    ensures VisitFile(env, FirstFile(a, n, h), Visit(b, false))
            == Scanner(Plain.opts, map[a := Duplicates([], [b])], map[], map[n := a, m := b], map[h := a])
  {
    var sa := FirstFile(a, n, h);
    VisitPlainFile(env, sa, b, h);
    NameNew(sa, m, b);
    HashRepeat(sa.(nameMap := sa.nameMap[m := b]), h, b, a, NoDuplicates);
    assert [] + [b] == [b];
  }

  /** Second file: same name, same content. */
  lemma VisitSameBoth(env: Env, a: Path, b: Path, n: string, h: string)
    requires env.toSlash(b) == b && env.base(b) == n && env.hashFile(b) == Success(h)
    ensures VisitFile(env, FirstFile(a, n, h), Visit(b, false))
            == Scanner(Plain.opts, map[a := Duplicates([b], [b])], map[], map[n := a], map[h := a])
  {
    var sa := FirstFile(a, n, h);
    VisitPlainFile(env, sa, b, h);
    NameRepeat(sa, n, b, a, NoDuplicates);
    HashRepeat(sa.(duplicateMap := map[a := Duplicates([b], [])]), h, b, a, Duplicates([b], []));
    assert [] + [b] == [b];
  }

  /** Second file: same name, other content. */
  lemma VisitSameName(env: Env, a: Path, b: Path, n: string, h: string, g: string)
    requires env.toSlash(b) == b && env.base(b) == n && env.hashFile(b) == Success(g) && g != h
    ensures VisitFile(env, FirstFile(a, n, h), Visit(b, false))
            == Scanner(Plain.opts, map[a := Duplicates([b], [])], map[], map[n := a], map[h := a, g := b])
  {
    var sa := FirstFile(a, n, h);
    VisitPlainFile(env, sa, b, g);
    NameRepeat(sa, n, b, a, NoDuplicates);
    HashNew(sa.(duplicateMap := map[a := Duplicates([b], [])]), g, b);
    assert [] + [b] == [b];
  }

  /** The state tree1 leaves, as a function of its files `x`, `y`, their names `n`, `m` and common content `h`. */
  function AfterSameContent(x: Path, y: Path, n: string, m: string, h: string): Scanner {
    Scanner(Plain.opts, map[x := Duplicates([], [y])], map[], map[n := x, m := y], map[h := x])
  }

  lemma NameAfterSameContent(x: Path, y: Path, a: Path, n: string, m: string, h: string)
    requires m != n
    ensures Classify(AfterSameContent(x, y, n, m, h), ByName, n, a)
            == AfterSameContent(x, y, n, m, h).(duplicateMap := map[x := Duplicates([a], [y])])
  {
    var sa := AfterSameContent(x, y, n, m, h);
    NameRepeat(sa, n, a, x, Duplicates([], [y]));
    assert [] + [a] == [a];
  }

  lemma HashAfterSameContent(x: Path, y: Path, a: Path, n: string, m: string, h: string)
    ensures Classify(AfterSameContent(x, y, n, m, h).(duplicateMap := map[x := Duplicates([a], [y])]), ByHash, h, a)
            == AfterRepeatBoth(x, y, a, n, m, h)
  {
    var sa := AfterSameContent(x, y, n, m, h).(duplicateMap := map[x := Duplicates([a], [y])]);
    HashRepeat(sa, h, a, x, Duplicates([a], [y]));
    assert [y] + [a] == [y, a];
  }

  /** After tree1, a file with `x`'s name and content. */
  lemma VisitRepeatBoth(env: Env, x: Path, y: Path, a: Path, n: string, m: string, h: string)
    requires env.toSlash(a) == a && env.base(a) == n && env.hashFile(a) == Success(h) && m != n
    ensures VisitFile(env, AfterSameContent(x, y, n, m, h), Visit(a, false))
            == AfterRepeatBoth(x, y, a, n, m, h)
  {
    VisitPlainFile(env, AfterSameContent(x, y, n, m, h), a, h);
    NameAfterSameContent(x, y, a, n, m, h);
    HashAfterSameContent(x, y, a, n, m, h);
  }

  /** The state after tree1 and the first file `a` of tree3. */
  function AfterRepeatBoth(x: Path, y: Path, a: Path, n: string, m: string, h: string): Scanner {
    Scanner(Plain.opts, map[x := Duplicates([a], [y, a])], map[], map[n := x, m := y], map[h := x])
  }

  lemma NameAfterRepeatBoth(x: Path, y: Path, a: Path, b: Path, n: string, m: string, h: string)
    requires m != n
    ensures Classify(AfterRepeatBoth(x, y, a, n, m, h), ByName, n, b)
            == AfterRepeatBoth(x, y, a, n, m, h).(duplicateMap := map[x := Duplicates([a, b], [y, a])])
  {
    var sa := AfterRepeatBoth(x, y, a, n, m, h);
    NameRepeat(sa, n, b, x, Duplicates([a], [y, a]));
    assert [a] + [b] == [a, b];
  }

  lemma VisitRepeatName(env: Env, x: Path, y: Path, a: Path, b: Path, n: string, m: string, h: string, g: string)
    requires env.toSlash(b) == b && env.base(b) == n && env.hashFile(b) == Success(g) && g != h && m != n
    ensures VisitFile(env, AfterRepeatBoth(x, y, a, n, m, h), Visit(b, false))
            == Scanner(Plain.opts, map[x := Duplicates([a, b], [y, a])], map[], map[n := x, m := y], map[h := x, g := b])
  {
    var sa := AfterRepeatBoth(x, y, a, n, m, h);
    VisitPlainFile(env, sa, b, g);
    NameAfterRepeatBoth(x, y, a, b, n, m, h);
    HashNew(sa.(duplicateMap := map[x := Duplicates([a, b], [y, a])]), g, b);
  }

  // ---------------------------------------------------------------------------
  // Whole walks of the fixture shapes.
  // ---------------------------------------------------------------------------

  /** Files with the same content and different names (tree1's shape). */
  lemma WalkSameContent(env: Env, root: Path, a: Path, b: Path, n: string, m: string, h: string)
    requires env.toSlash(a) == a && env.base(a) == n && env.hashFile(a) == Success(h)
    requires env.toSlash(b) == b && env.base(b) == m && env.hashFile(b) == Success(h) && m != n
    ensures FoldVisits(env, Plain, TwoDirs(root, a, b)) == AfterSameContent(a, b, n, m, h)
  {
    WalkTwoDirs(env, Plain, root, a, b);
    VisitFirst(env, a, n, h);
    VisitSameContent(env, a, b, n, m, h);
  }

  /** Files with the same name and the same content (tree2's shape). */
  lemma WalkSameBoth(env: Env, root: Path, a: Path, b: Path, n: string, h: string)
    requires env.toSlash(a) == a && env.base(a) == n && env.hashFile(a) == Success(h)
    requires env.toSlash(b) == b && env.base(b) == n && env.hashFile(b) == Success(h)
    ensures FoldVisits(env, Plain, TwoDirs(root, a, b))
            == Scanner(Plain.opts, map[a := Duplicates([b], [b])], map[], map[n := a], map[h := a])
  {
    WalkTwoDirs(env, Plain, root, a, b);
    VisitFirst(env, a, n, h);
    VisitSameBoth(env, a, b, n, h);
  }

  /** Files with the same name and different contents (tree3's shape). */
  lemma WalkSameName(env: Env, root: Path, a: Path, b: Path, n: string, h: string, g: string)
    requires env.toSlash(a) == a && env.base(a) == n && env.hashFile(a) == Success(h)
    requires env.toSlash(b) == b && env.base(b) == n && env.hashFile(b) == Success(g) && g != h
    ensures FoldVisits(env, Plain, TwoDirs(root, a, b))
            == Scanner(Plain.opts, map[a := Duplicates([b], [])], map[], map[n := a], map[h := a, g := b])
  {
    WalkTwoDirs(env, Plain, root, a, b);
    VisitFirst(env, a, n, h);
    VisitSameName(env, a, b, n, h, g);
  }

  /** tree3's shape walked after tree1's, its first file matching tree1's first in name and content. */
  lemma WalkAfterSameContent(env: Env, root: Path, x: Path, y: Path, a: Path, b: Path, n: string, m: string, h: string, g: string)
    requires env.toSlash(a) == a && env.base(a) == n && env.hashFile(a) == Success(h)
    requires env.toSlash(b) == b && env.base(b) == n && env.hashFile(b) == Success(g) && g != h && m != n
    ensures FoldVisits(env, AfterSameContent(x, y, n, m, h), TwoDirs(root, a, b))
            == Scanner(Plain.opts, map[x := Duplicates([a, b], [y, a])], map[], map[n := x, m := y], map[h := x, g := b])
  {
    WalkTwoDirs(env, AfterSameContent(x, y, n, m, h), root, a, b);
    VisitRepeatBoth(env, x, y, a, n, m, h);
    VisitRepeatName(env, x, y, a, b, n, m, h, g);
  }

  // ---------------------------------------------------------------------------
  // The package's test scenarios.
  // ---------------------------------------------------------------------------

  lemma FixtureFiles()
    ensures forall p :: Fixtures.toSlash(p) == p
    ensures Fixtures.base(T1A) == "file1.txt" && Fixtures.hashFile(T1A) == Success("c1")
    ensures Fixtures.base(T1B) == "file2.txt" && Fixtures.hashFile(T1B) == Success("c1")
    ensures Fixtures.base(T2A) == "file1.txt" && Fixtures.hashFile(T2A) == Success("c3")
    ensures Fixtures.base(T2B) == "file1.txt" && Fixtures.hashFile(T2B) == Success("c3")
    ensures Fixtures.base(T3A) == "file1.txt" && Fixtures.hashFile(T3A) == Success("c1")
    ensures Fixtures.base(T3B) == "file1.txt" && Fixtures.hashFile(T3B) == Success("c2")
  {
  }

  lemma FixtureWalks()
    ensures Fixtures.walk(Tree1) == WalkOutcome(TwoDirs(Tree1, T1A, T1B), None)
    ensures Fixtures.walk(Tree2) == WalkOutcome(TwoDirs(Tree2, T2A, T2B), None)
    ensures Fixtures.walk(Tree3) == WalkOutcome(TwoDirs(Tree3, T3A, T3B), None)
  {
  }

  /** A walk that succeeds hands back no error and the fold of its visits. */
  lemma ScanDirClean(env: Env, s: Scanner, root: Path, vs: seq<Visit>)
    requires env.walk(root) == WalkOutcome(vs, None)
    ensures ScanDir(env, s, root) == ScanResult(FoldVisits(env, s, vs), None)
  {
  }

  /** The queries on a state with no error and one record `d`. */
  lemma OneRecordQueries(r: Scanner, a: Path, d: Duplicates)
    requires r.errMap == map[] && r.duplicateMap == map[a := d]
    ensures !HasErrors(r) && FoundDuplicates(r)
    ensures forall p :: p in r.duplicateMap ==> |r.duplicateMap[p].nameDuplicates| == |d.nameDuplicates|
    ensures forall p :: p in r.duplicateMap ==> |r.duplicateMap[p].hashDuplicates| == |d.hashDuplicates|
  {
    assert a in r.duplicateMap;
  }

  /** A single two-file tree whose files share content only: one content duplicate, no name duplicate. */
  lemma ScanSameContent(env: Env, root: Path, a: Path, b: Path, n: string, m: string, h: string)
    requires env.walk(root) == WalkOutcome(TwoDirs(root, a, b), None)
    requires env.toSlash(a) == a && env.base(a) == n && env.hashFile(a) == Success(h)
    requires env.toSlash(b) == b && env.base(b) == m && env.hashFile(b) == Success(h) && m != n
    ensures var r := ScanDir(env, Plain, root);
      && r.err.None? && !HasErrors(r.scanner) && FoundDuplicates(r.scanner)
      && r.scanner.duplicateMap == map[a := Duplicates([], [b])]
      && (forall p :: p in r.scanner.duplicateMap ==> |r.scanner.duplicateMap[p].nameDuplicates| == 0)
      && (forall p :: p in r.scanner.duplicateMap ==> |r.scanner.duplicateMap[p].hashDuplicates| == 1)
  {
    ScanDirClean(env, Plain, root, TwoDirs(root, a, b));
    WalkSameContent(env, root, a, b, n, m, h);
    OneRecordQueries(AfterSameContent(a, b, n, m, h), a, Duplicates([], [b]));
  }

  lemma ScanSameBoth(env: Env, root: Path, a: Path, b: Path, n: string, h: string)
    requires env.walk(root) == WalkOutcome(TwoDirs(root, a, b), None)
    requires env.toSlash(a) == a && env.base(a) == n && env.hashFile(a) == Success(h)
    requires env.toSlash(b) == b && env.base(b) == n && env.hashFile(b) == Success(h)
    ensures var r := ScanDir(env, Plain, root);
      && r.err.None? && !HasErrors(r.scanner) && FoundDuplicates(r.scanner)
      && r.scanner.duplicateMap == map[a := Duplicates([b], [b])]
      && (forall p :: p in r.scanner.duplicateMap ==> |r.scanner.duplicateMap[p].nameDuplicates| == 1)
      && (forall p :: p in r.scanner.duplicateMap ==> |r.scanner.duplicateMap[p].hashDuplicates| == 1)
  {
    ScanDirClean(env, Plain, root, TwoDirs(root, a, b));
    WalkSameBoth(env, root, a, b, n, h);
    OneRecordQueries(FoldVisits(env, Plain, TwoDirs(root, a, b)), a, Duplicates([b], [b]));
  }

  lemma ScanSameName(env: Env, root: Path, a: Path, b: Path, n: string, h: string, g: string)
    requires env.walk(root) == WalkOutcome(TwoDirs(root, a, b), None)
    requires env.toSlash(a) == a && env.base(a) == n && env.hashFile(a) == Success(h)
    requires env.toSlash(b) == b && env.base(b) == n && env.hashFile(b) == Success(g) && g != h
    ensures var r := ScanDir(env, Plain, root);
      && r.err.None? && !HasErrors(r.scanner) && FoundDuplicates(r.scanner)
      && r.scanner.duplicateMap == map[a := Duplicates([b], [])]
      && (forall p :: p in r.scanner.duplicateMap ==> |r.scanner.duplicateMap[p].nameDuplicates| == 1)
      && (forall p :: p in r.scanner.duplicateMap ==> |r.scanner.duplicateMap[p].hashDuplicates| == 0)
  {
    ScanDirClean(env, Plain, root, TwoDirs(root, a, b));
    WalkSameName(env, root, a, b, n, h, g);
    OneRecordQueries(FoldVisits(env, Plain, TwoDirs(root, a, b)), a, Duplicates([b], []));
  }

  lemma ScanDirsCons(env: Env, s: Scanner, root: Path, rest: seq<Path>)
    ensures ScanDirs(env, s, [root] + rest) == ScanDirs(env, ScanRoot(env, s, root), rest)
  {
    assert ([root] + rest)[1..] == rest;
  }

  lemma ScanDirsTwo(env: Env, s: Scanner, r1: Path, r2: Path)
    ensures ScanDirs(env, s, [r1, r2]) == ScanRoot(env, ScanRoot(env, s, r1), r2)
  {
    ScanDirsCons(env, s, r1, [r2]);
    ScanDirsCons(env, ScanRoot(env, s, r1), r2, []);
    assert [r1] + [r2] == [r1, r2] && [r2] + [] == [r2];
  }

  lemma ScanRootClean(env: Env, s: Scanner, root: Path)
    requires env.walk(root).err == None
    ensures ScanRoot(env, s, root) == FoldVisits(env, s, env.walk(root).visits)
  {
  }

  /** Two roots in one session: the state is tree1's carried on through tree3's walk. */
  lemma ScanTwoRootsState(env: Env, r1: Path, r2: Path, x: Path, y: Path, a: Path, b: Path, n: string, m: string, h: string, g: string)
    requires env.walk(r1) == WalkOutcome(TwoDirs(r1, x, y), None)
    requires env.walk(r2) == WalkOutcome(TwoDirs(r2, a, b), None)
    requires env.toSlash(x) == x && env.base(x) == n && env.hashFile(x) == Success(h)
    requires env.toSlash(y) == y && env.base(y) == m && env.hashFile(y) == Success(h) && m != n
    requires env.toSlash(a) == a && env.base(a) == n && env.hashFile(a) == Success(h)
    requires env.toSlash(b) == b && env.base(b) == n && env.hashFile(b) == Success(g) && g != h
    ensures ScanDirs(env, Plain, [r1, r2])
            == Scanner(Plain.opts, map[x := Duplicates([a, b], [y, a])], map[], map[n := x, m := y], map[h := x, g := b])
  {
    ScanDirsTwo(env, Plain, r1, r2);
    ScanRootClean(env, Plain, r1);
    WalkSameContent(env, r1, x, y, n, m, h);
    ScanRootClean(env, AfterSameContent(x, y, n, m, h), r2);
    WalkAfterSameContent(env, r2, x, y, a, b, n, m, h, g);
  }

  /** The queries on the state two roots leave. */
  lemma TwoRootsQueries(x: Path, y: Path, a: Path, b: Path, n: string, m: string, h: string, g: string)
    ensures var r := Scanner(Plain.opts, map[x := Duplicates([a, b], [y, a])], map[], map[n := x, m := y], map[h := x, g := b]);
      && !HasErrors(r) && FoundDuplicates(r)
      && (forall p :: p in r.duplicateMap ==> |r.duplicateMap[p].nameDuplicates| == 2)
      && (forall p :: p in r.duplicateMap ==> |r.duplicateMap[p].hashDuplicates| == 2)
      && DuplicatePaths(r.duplicateMap) == {a, b, y}
  {
    var dm := map[x := Duplicates([a, b], [y, a])];
    var all := dm[x].nameDuplicates + dm[x].hashDuplicates;
    assert all == [a, b, y, a];
    assert a in all && b in all && y in all;
    forall p | p in DuplicatePaths(dm) ensures p in {a, b, y} {
      assert p in all;
    }
  }

  lemma ScanTwoRoots(env: Env, r1: Path, r2: Path, x: Path, y: Path, a: Path, b: Path, n: string, m: string, h: string, g: string)
    requires env.walk(r1) == WalkOutcome(TwoDirs(r1, x, y), None)
    requires env.walk(r2) == WalkOutcome(TwoDirs(r2, a, b), None)
    requires env.toSlash(x) == x && env.base(x) == n && env.hashFile(x) == Success(h)
    requires env.toSlash(y) == y && env.base(y) == m && env.hashFile(y) == Success(h) && m != n
    requires env.toSlash(a) == a && env.base(a) == n && env.hashFile(a) == Success(h)
    requires env.toSlash(b) == b && env.base(b) == n && env.hashFile(b) == Success(g) && g != h
    ensures var r := ScanDirs(env, Plain, [r1, r2]);
      && !HasErrors(r) && FoundDuplicates(r)
      && r.duplicateMap == map[x := Duplicates([a, b], [y, a])]
      && (forall p :: p in r.duplicateMap ==> |r.duplicateMap[p].nameDuplicates| == 2)
      && (forall p :: p in r.duplicateMap ==> |r.duplicateMap[p].hashDuplicates| == 2)
      && DuplicatePaths(r.duplicateMap) == {a, b, y}
  {
    ScanTwoRootsState(env, r1, r2, x, y, a, b, n, m, h, g);
    TwoRootsQueries(x, y, a, b, n, m, h, g);
  }

  /** tree1 alone, as the package's first test scans it: one content duplicate per record, no name duplicate. */
  lemma Tree1Scan()
    ensures var r := ScanDir(Fixtures, Plain, Tree1);
      && r.err.None? && !HasErrors(r.scanner) && FoundDuplicates(r.scanner)
      && r.scanner.duplicateMap == map[T1A := Duplicates([], [T1B])]
      && (forall p :: p in r.scanner.duplicateMap ==> |r.scanner.duplicateMap[p].nameDuplicates| == 0)
      && (forall p :: p in r.scanner.duplicateMap ==> |r.scanner.duplicateMap[p].hashDuplicates| == 1)
  {
    FixtureFiles();
    FixtureWalks();
    ScanSameContent(Fixtures, Tree1, T1A, T1B, "file1.txt", "file2.txt", "c1");
  }

  /** tree2 alone (the second test): one name and one content duplicate per record. */
  lemma Tree2Scan()
    ensures var r := ScanDir(Fixtures, Plain, Tree2);
      && r.err.None? && !HasErrors(r.scanner) && FoundDuplicates(r.scanner)
      && r.scanner.duplicateMap == map[T2A := Duplicates([T2B], [T2B])]
      && (forall p :: p in r.scanner.duplicateMap ==> |r.scanner.duplicateMap[p].nameDuplicates| == 1)
      && (forall p :: p in r.scanner.duplicateMap ==> |r.scanner.duplicateMap[p].hashDuplicates| == 1)
  {
    FixtureFiles();
    FixtureWalks();
    ScanSameBoth(Fixtures, Tree2, T2A, T2B, "file1.txt", "c3");
  }

  /** tree3 alone (the third test): one name duplicate per record, no content duplicate. */
  lemma Tree3Scan()
    ensures var r := ScanDir(Fixtures, Plain, Tree3);
      && r.err.None? && !HasErrors(r.scanner) && FoundDuplicates(r.scanner)
      && r.scanner.duplicateMap == map[T3A := Duplicates([T3B], [])]
      && (forall p :: p in r.scanner.duplicateMap ==> |r.scanner.duplicateMap[p].nameDuplicates| == 1)
      && (forall p :: p in r.scanner.duplicateMap ==> |r.scanner.duplicateMap[p].hashDuplicates| == 0)
  {
    FixtureFiles();
    FixtureWalks();
    ScanSameName(Fixtures, Tree3, T3A, T3B, "file1.txt", "c1", "c2");
  }

  /**
    tree1 then tree3 in one session (the fourth test): the first file of
    tree1 collects two name and two content duplicates, and the flat list
    holds the three files after it.
  */
  lemma MultipleTreesScan()
    ensures var r := ScanDirs(Fixtures, Plain, [Tree1, Tree3]);
      && !HasErrors(r) && FoundDuplicates(r)
      && r.duplicateMap == map[T1A := Duplicates([T3A, T3B], [T1B, T3A])]
      && (forall p :: p in r.duplicateMap ==> |r.duplicateMap[p].nameDuplicates| == 2)
      && (forall p :: p in r.duplicateMap ==> |r.duplicateMap[p].hashDuplicates| == 2)
      && DuplicatePaths(r.duplicateMap) == {T3A, T3B, T1B}
  {
    FixtureFiles();
    FixtureWalks();
    ScanTwoRoots(Fixtures, Tree1, Tree3, T1A, T1B, T3A, T3B, "file1.txt", "file2.txt", "c1", "c2");
  }
}
