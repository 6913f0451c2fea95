/**
  What a scan's records contain, exactly. For each check and each key, take
  the normalized paths of the visits the check files under that key, in visit
  order: the first of them is the key's representative in the index (it is
  never replaced) and its record lists the rest, in order. A consequence is
  that the two checks do not influence each other: turning one check off, or
  on, leaves the other's index and sequences as they were.
*/
module Grouping {
  import opened Wrappers
  import opened Doppler
  import opened Invariants
  import opened Composition

  /** The normalized paths of the visits check `c` files under key `k`, in visit order. */
  function Classified(env: Env, opts: Options, vs: seq<Visit>, c: Check, k: string): seq<Path>
    decreases |vs|
  {
    if vs == [] then []
    else
      var v := vs[|vs| - 1];
      Classified(env, opts, vs[..|vs| - 1], c, k)
      + (if KeyOf(env, opts, v, c) == Some(k) then [NormalizedPath(env, opts, v.path)] else [])
  }

  /** Check `c`'s index and sequences are the same in `a` and `b`. */
  ghost predicate SameFor(a: Scanner, b: Scanner, c: Check) {
    a.Index(c) == b.Index(c) && forall p :: a.RecordOf(p).Of(c) == b.RecordOf(p).Of(c)
  }

  /**
    `r` is `s` after check `c` classified `wpath` under `key`: an unseen key
    is indexed to `wpath`; a repeat is appended to its representative's
    sequence and to no other.
  */
  ghost predicate Applied(s: Scanner, r: Scanner, c: Check, key: Option<string>, wpath: Path) {
    match key
    case None => SameFor(s, r, c)
    case Some(k) =>
      if k !in s.Index(c) then
        r.Index(c) == s.Index(c)[k := wpath] && forall p :: r.RecordOf(p).Of(c) == s.RecordOf(p).Of(c)
      else
        && r.Index(c) == s.Index(c)
        && forall p :: r.RecordOf(p).Of(c)
                       == if p == s.Index(c)[k] then s.RecordOf(p).Of(c) + [wpath] else s.RecordOf(p).Of(c)
  }

  lemma SameForStrip(a: Scanner, b: Scanner, c: Check)
    requires Strip(a) == Strip(b)
    ensures SameFor(a, b, c)
  {
    assert a.nameMap == b.nameMap && a.hashMap == b.hashMap && a.duplicateMap == b.duplicateMap;
  }

  lemma SameForTrans(a: Scanner, b: Scanner, d: Scanner, c: Check)
    requires SameFor(a, b, c) && SameFor(b, d, c)
    ensures SameFor(a, d, c)
  {
  }

  lemma ClassifyApplied(s: Scanner, c: Check, key: string, wpath: Path)
    ensures Applied(s, Classify(s, c, key, wpath), c, Some(key), wpath)
    ensures SameFor(s, Classify(s, c, key, wpath), c.Other())
  {
    var r := Classify(s, c, key, wpath);
    if key in s.Index(c) {
      var first := s.Index(c)[key];
      forall p ensures r.RecordOf(p).Of(c) == if p == first then s.RecordOf(p).Of(c) + [wpath] else s.RecordOf(p).Of(c)
      {
      }
    }
  }

  lemma AppliedAfterSame(a: Scanner, b: Scanner, r: Scanner, c: Check, key: Option<string>, wpath: Path)
    requires SameFor(a, b, c) && Applied(b, r, c, key, wpath)
    ensures Applied(a, r, c, key, wpath)
  {
  }

  lemma AppliedBeforeSame(a: Scanner, b: Scanner, r: Scanner, c: Check, key: Option<string>, wpath: Path)
    requires Applied(a, b, c, key, wpath) && SameFor(b, r, c)
    ensures Applied(a, r, c, key, wpath)
  {
  }

  lemma CheckNameApplied(env: Env, s: Scanner, wpath: Path, c: Check)
    ensures Applied(s, CheckName(env, s, wpath), c,
                    if c == ByName && !s.opts.skipName then Some(env.base(wpath)) else None, wpath)
  {
    if !s.opts.skipName {
      ClassifyApplied(s, ByName, env.base(wpath), wpath);
    }
  }

  lemma CheckHashApplied(env: Env, s: Scanner, raw: Path, wpath: Path, c: Check)
    ensures Applied(s, CheckHash(env, s, raw, wpath), c,
                    if c == ByHash && !s.opts.skipHash then KeyOfPath(env, ByHash, wpath) else None, wpath)
  {
    if !s.opts.skipHash {
      match env.hashFile(wpath)
      case Failure(e) =>
        assert SameFor(s, RecordError(s, raw, e), c);
      case Success(h) =>
        ClassifyApplied(s, ByHash, h, wpath);
    }
  }

  /** Classification in the middle of two steps that leave check `c` alone. */
  lemma AppliedBetween(s: Scanner, s1: Scanner, s2: Scanner, r: Scanner, c: Check, key: Option<string>, w: Path)
    requires SameFor(s, s1, c) && Applied(s1, s2, c, key, w) && SameFor(s2, r, c)
    ensures Applied(s, r, c, key, w)
  {
    AppliedAfterSame(s, s1, s2, c, key, w);
    AppliedBeforeSame(s, s2, r, c, key, w);
  }

  /** Classification after two steps that leave check `c` alone. */
  lemma AppliedLast(s: Scanner, s1: Scanner, s2: Scanner, r: Scanner, c: Check, key: Option<string>, w: Path)
    requires SameFor(s, s1, c) && SameFor(s1, s2, c) && Applied(s2, r, c, key, w)
    ensures Applied(s, r, c, key, w)
  {
    SameForTrans(s, s1, s2, c);
    AppliedAfterSame(s, s2, r, c, key, w);
  }

  /** A file's visit classifies its normalized path under its base name, unless names are skipped. */
  lemma VisitNameApplied(env: Env, s: Scanner, v: Visit)
    requires !v.isDir
    ensures Applied(s, VisitFile(env, s, v), ByName, KeyOf(env, s.opts, v, ByName), NormalizedPath(env, s.opts, v.path))
  {
    var wpath := NormalizedPath(env, s.opts, v.path);
    var s1 := RecordAbsError(env, s, v.path);
    var s2 := CheckName(env, s1, wpath);
    VisitFileUnfold(env, s, v);
    SameForStrip(s, s1, ByName);
    CheckNameApplied(env, s1, wpath, ByName);
    CheckHashApplied(env, s2, v.path, wpath, ByName);
    assert KeyOf(env, s.opts, v, ByName) == if !s1.opts.skipName then Some(env.base(wpath)) else None;
    AppliedBetween(s, s1, s2, CheckHash(env, s2, v.path, wpath), ByName, KeyOf(env, s.opts, v, ByName), wpath);
  }

  /** A file's visit classifies its normalized path under its hash, unless hashes are skipped or hashing fails. */
  lemma VisitHashApplied(env: Env, s: Scanner, v: Visit)
    requires !v.isDir
    ensures Applied(s, VisitFile(env, s, v), ByHash, KeyOf(env, s.opts, v, ByHash), NormalizedPath(env, s.opts, v.path))
  {
    var wpath := NormalizedPath(env, s.opts, v.path);
    var s1 := RecordAbsError(env, s, v.path);
    var s2 := CheckName(env, s1, wpath);
    VisitFileUnfold(env, s, v);
    SameForStrip(s, s1, ByHash);
    CheckNameApplied(env, s1, wpath, ByHash);
    CheckHashApplied(env, s2, v.path, wpath, ByHash);
    assert KeyOf(env, s.opts, v, ByHash) == if !s2.opts.skipHash then KeyOfPath(env, ByHash, wpath) else None;
    AppliedLast(s, s1, s2, CheckHash(env, s2, v.path, wpath), ByHash, KeyOf(env, s.opts, v, ByHash), wpath);
  }

  /** One visit classifies its normalized path under its key, for each check, and does nothing else to it. */
  lemma VisitFileApplied(env: Env, s: Scanner, v: Visit, c: Check)
    ensures Applied(s, VisitFile(env, s, v), c, KeyOf(env, s.opts, v, c), NormalizedPath(env, s.opts, v.path))
  {
    if !v.isDir {
      match c
      case ByName => VisitNameApplied(env, s, v);
      case ByHash => VisitHashApplied(env, s, v);
    }
  }

  /** Check `c` has nothing indexed and nothing attached. */
  ghost predicate Fresh(s: Scanner, c: Check) {
    s.Index(c) == map[] && forall p :: s.RecordOf(p).Of(c) == []
  }

  /** Key `k` of check `c` in `r` is indexed to the head of `g`, and its representative's record is the rest. */
  ghost predicate GroupAt(r: Scanner, c: Check, g: seq<Path>, k: string) {
    && (k in r.Index(c) <==> g != [])
    && (k in r.Index(c) ==> r.Index(c)[k] == g[0] && r.RecordOf(r.Index(c)[k]).Of(c) == g[1..])
  }

  /** The records of `r` for check `c` are exactly those the classified paths of `vs` determine. */
  ghost predicate GroupsOf(env: Env, opts: Options, vs: seq<Visit>, r: Scanner, c: Check) {
    forall k :: GroupAt(r, c, Classified(env, opts, vs, c, k), k)
  }

  lemma ClassifiedSnoc(env: Env, opts: Options, pre: seq<Visit>, v: Visit, c: Check, k: string)
    ensures Classified(env, opts, pre + [v], c, k)
            == Classified(env, opts, pre, c, k)
               + (if KeyOf(env, opts, v, c) == Some(k) then [NormalizedPath(env, opts, v.path)] else [])
  {
    var vs := pre + [v];
    assert vs[..|vs| - 1] == pre && vs[|vs| - 1] == v;
  }

  /** One classification extends key `k`'s group by `w` when it is filed under `k`, and keeps it otherwise. */
  lemma GroupAtStep(t: Scanner, r: Scanner, c: Check, key: Option<string>, w: Path, g: seq<Path>, k: string)
    requires GroupAt(t, c, g, k) && Applied(t, r, c, key, w)
    requires key == Some(k) && k !in t.Index(c) ==> t.RecordOf(w).Of(c) == []
    requires key.Some? && key.value in t.Index(c) && k in t.Index(c) && k != key.value ==>
               t.Index(c)[k] != t.Index(c)[key.value]
    ensures GroupAt(r, c, g + (if key == Some(k) then [w] else []), k)
  {
    if key == Some(k) && k in t.Index(c) {
      assert (g + [w])[1..] == g[1..] + [w];
    }
  }

  /** In a grouped state a path carrying an unindexed key has an empty sequence. */
  lemma UnindexedEmpty(env: Env, t: Scanner, c: Check, w: Path)
    requires Grouped(env, t, c)
    requires KeyOfPath(env, c, w).Some? && KeyOfPath(env, c, w).value !in t.Index(c)
    ensures t.RecordOf(w).Of(c) == []
  {
  }

  /** One visit, applied to a grouped state, extends key `k`'s group by that visit. */
  lemma GroupStepAt(env: Env, t: Scanner, r: Scanner, v: Visit, pre: seq<Visit>, c: Check, k: string)
    requires Grouped(env, t, c) && GroupAt(t, c, Classified(env, t.opts, pre, c, k), k)
    requires Applied(t, r, c, KeyOf(env, t.opts, v, c), NormalizedPath(env, t.opts, v.path))
    ensures GroupAt(r, c, Classified(env, t.opts, pre + [v], c, k), k)
  {
    var key := KeyOf(env, t.opts, v, c);
    var w := NormalizedPath(env, t.opts, v.path);
    if key.Some? && key.value !in t.Index(c) {
      assert KeyOfPath(env, c, w) == key;
      UnindexedEmpty(env, t, c, w);
    }
    ClassifiedSnoc(env, t.opts, pre, v, c, k);
    if key.Some? && key.value in t.Index(c) && k in t.Index(c) && k != key.value {
      assert KeyOfPath(env, c, t.Index(c)[k]) == Some(k);
      assert KeyOfPath(env, c, t.Index(c)[key.value]) == key;
    }
    GroupAtStep(t, r, c, key, w, Classified(env, t.opts, pre, c, k), k);
  }

  lemma GroupsStep(env: Env, t: Scanner, v: Visit, pre: seq<Visit>, c: Check)
    requires Grouped(env, t, c) && GroupsOf(env, t.opts, pre, t, c)
    ensures GroupsOf(env, t.opts, pre + [v], VisitFile(env, t, v), c)
  {
    var r := VisitFile(env, t, v);
    VisitFileApplied(env, t, v, c);
    forall k ensures GroupAt(r, c, Classified(env, t.opts, pre + [v], c, k), k) {
      GroupStepAt(env, t, r, v, pre, c, k);
    }
  }

  /** From a state where check `c` is fresh, a walk leaves exactly the records its classified paths determine. */
  lemma {:induction false} FoldVisitsGroups(env: Env, s: Scanner, vs: seq<Visit>, c: Check)
    requires Valid(env, s) && Fresh(s, c)
    ensures GroupsOf(env, s.opts, vs, FoldVisits(env, s, vs), c)
    decreases |vs|
  {
    if vs == [] {
    } else {
      var pre := vs[..|vs| - 1];
      var v := vs[|vs| - 1];
      FoldVisitsGroups(env, s, pre, c);
      FoldVisitsSnoc(env, s, vs);
      var t := FoldVisits(env, s, pre);
      FoldVisitsValid(env, s, pre);
      assert Grouped(env, t, c);
      GroupsStep(env, t, v, pre, c);
      assert pre + [v] == vs;
    }
  }

  /**
    After scanning `roots` from a new scanner, for every key of check `c`:
    the key is indexed exactly when some visited file carries it, its
    representative is the first such file, and its record lists the others
    in visit order.
  */
  lemma ScanGroups(env: Env, skipName: bool, skipHash: bool, absolute: bool, roots: seq<Path>, c: Check)
    ensures var s := NewScanner(skipName, skipHash, absolute);
      GroupsOf(env, s.opts, AllVisits(env, roots), ScanDirs(env, s, roots), c)
  {
    var s := NewScanner(skipName, skipHash, absolute);
    var vs := AllVisits(env, roots);
    NewScannerValid(env, skipName, skipHash, absolute);
    FoldVisitsGroups(env, s, vs, c);
    ScanDirsIsFold(env, s, roots);
    var r, f := ScanDirs(env, s, roots), FoldVisits(env, s, vs);
    assert Strip(r) == Strip(f);
    GroupsOfSame(env, s.opts, vs, f, r, c);
  }

  lemma GroupsOfSame(env: Env, opts: Options, vs: seq<Visit>, a: Scanner, b: Scanner, c: Check)
    requires Strip(a) == Strip(b) && GroupsOf(env, opts, vs, a, c)
    ensures GroupsOf(env, opts, vs, b, c)
  {
    assert a.nameMap == b.nameMap && a.hashMap == b.hashMap && a.duplicateMap == b.duplicateMap;
  }

  /** After a scan, a path's sequence for check `c` is determined by the visits alone. */
  lemma ScanRecord(env: Env, skipName: bool, skipHash: bool, absolute: bool, roots: seq<Path>, c: Check, p: Path)
    ensures var s := NewScanner(skipName, skipHash, absolute);
      var r := ScanDirs(env, s, roots);
      var key := KeyOfPath(env, c, p);
      var group := if key.Some? then Classified(env, s.opts, AllVisits(env, roots), c, key.value) else [];
      r.RecordOf(p).Of(c) == if group != [] && group[0] == p then group[1..] else []
  {
    var s := NewScanner(skipName, skipHash, absolute);
    var r := ScanDirs(env, s, roots);
    ScanGroups(env, skipName, skipHash, absolute, roots, c);
    NewScannerValid(env, skipName, skipHash, absolute);
    ScanDirsValid(env, s, roots);
    var key := KeyOfPath(env, c, p);
    if !(key.Some? && key.value in r.Index(c) && r.Index(c)[key.value] == p) && r.RecordOf(p).Of(c) != [] {
      assert false;
    }
  }

  lemma {:induction false} ClassifiedAgree(env: Env, o1: Options, o2: Options, vs: seq<Visit>, c: Check, k: string)
    requires o1.absolute == o2.absolute && o1.Enabled(c) == o2.Enabled(c)
    ensures Classified(env, o1, vs, c, k) == Classified(env, o2, vs, c, k)
    decreases |vs|
  {
    if vs != [] {
      ClassifiedAgree(env, o1, o2, vs[..|vs| - 1], c, k);
    }
  }

  lemma ClassifiedAgreeAll(env: Env, o1: Options, o2: Options, vs: seq<Visit>, c: Check)
    requires o1.absolute == o2.absolute && o1.Enabled(c) == o2.Enabled(c)
    ensures forall k :: Classified(env, o1, vs, c, k) == Classified(env, o2, vs, c, k)
  {
    forall k ensures Classified(env, o1, vs, c, k) == Classified(env, o2, vs, c, k) {
      ClassifiedAgree(env, o1, o2, vs, c, k);
    }
  }

  /** Two states grouped by the same classification agree on check `c`'s index. */
  lemma GroupsSameIndex(env: Env, o1: Options, o2: Options, vs: seq<Visit>, r1: Scanner, r2: Scanner, c: Check)
    requires GroupsOf(env, o1, vs, r1, c) && GroupsOf(env, o2, vs, r2, c)
    requires forall k :: Classified(env, o1, vs, c, k) == Classified(env, o2, vs, c, k)
    ensures r1.Index(c) == r2.Index(c)
  {
    forall k ensures (k in r1.Index(c) <==> k in r2.Index(c)) && (k in r1.Index(c) ==> r1.Index(c)[k] == r2.Index(c)[k]) {
      assert GroupAt(r1, c, Classified(env, o1, vs, c, k), k);
      assert GroupAt(r2, c, Classified(env, o2, vs, c, k), k);
    }
  }

  /** Scans whose options agree on check `c` index the same keys to the same paths for it. */
  lemma ScanIndexAgree(env: Env, o1: Options, o2: Options, roots: seq<Path>, c: Check)
    requires o1.absolute == o2.absolute && o1.Enabled(c) == o2.Enabled(c)
    ensures ScanDirs(env, NewScanner(o1.skipName, o1.skipHash, o1.absolute), roots).Index(c)
            == ScanDirs(env, NewScanner(o2.skipName, o2.skipHash, o2.absolute), roots).Index(c)
  {
    var vs := AllVisits(env, roots);
    ClassifiedAgreeAll(env, o1, o2, vs, c);
    ScanGroups(env, o1.skipName, o1.skipHash, o1.absolute, roots, c);
    ScanGroups(env, o2.skipName, o2.skipHash, o2.absolute, roots, c);
    GroupsSameIndex(env, o1, o2, vs,
      ScanDirs(env, NewScanner(o1.skipName, o1.skipHash, o1.absolute), roots),
      ScanDirs(env, NewScanner(o2.skipName, o2.skipHash, o2.absolute), roots), c);
  }

  /** Scans whose options agree on check `c` give every path the same sequence for it. */
  lemma ScanRecordAgree(env: Env, o1: Options, o2: Options, roots: seq<Path>, c: Check, p: Path)
    requires o1.absolute == o2.absolute && o1.Enabled(c) == o2.Enabled(c)
    ensures ScanDirs(env, NewScanner(o1.skipName, o1.skipHash, o1.absolute), roots).RecordOf(p).Of(c)
            == ScanDirs(env, NewScanner(o2.skipName, o2.skipHash, o2.absolute), roots).RecordOf(p).Of(c)
  {
    ScanRecord(env, o1.skipName, o1.skipHash, o1.absolute, roots, c, p);
    ScanRecord(env, o2.skipName, o2.skipHash, o2.absolute, roots, c, p);
    var key := KeyOfPath(env, c, p);
    if key.Some? {
      ClassifiedAgree(env, o1, o2, AllVisits(env, roots), c, key.value);
    }
  }

  /**
    The checks are independent: two scans of the same roots whose options
    agree on path resolution and on whether check `c` runs end with the same
    index and the same sequences for `c`, whatever the other check does.
  */
  lemma ChecksIndependent(env: Env, o1: Options, o2: Options, roots: seq<Path>, c: Check)
    requires o1.absolute == o2.absolute && o1.Enabled(c) == o2.Enabled(c)
    ensures var r1 := ScanDirs(env, NewScanner(o1.skipName, o1.skipHash, o1.absolute), roots);
      var r2 := ScanDirs(env, NewScanner(o2.skipName, o2.skipHash, o2.absolute), roots);
      SameFor(r1, r2, c)
  {
    ScanIndexAgree(env, o1, o2, roots, c);
    forall p
      ensures ScanDirs(env, NewScanner(o1.skipName, o1.skipHash, o1.absolute), roots).RecordOf(p).Of(c)
              == ScanDirs(env, NewScanner(o2.skipName, o2.skipHash, o2.absolute), roots).RecordOf(p).Of(c)
    {
      ScanRecordAgree(env, o1, o2, roots, c, p);
    }
  }
}
