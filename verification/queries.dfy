/**
  What the queries of a finished scan report, in terms of the visits alone:
  errors were recorded exactly when a visit or a root failed, duplicates were
  found exactly when two classified files share a key under some check, and
  the flat duplicate list holds exactly the files that came after the first
  carrier of their key. A failed hash is isolated to its own file.
*/
module Queries {
  import opened Wrappers
  import opened Doppler
  import opened Invariants
  import opened Counting
  import opened Composition
  import opened Grouping

  /** A map has entries exactly when its key set is non-empty. */
  lemma NonEmptyMap<K, V>(m: map<K, V>)
    ensures |m| > 0 <==> m.Keys != {}
  {
    assert |m| == |m.Keys|;
  }

  /** A scan from a new scanner reports errors exactly when some visit or some root failed. */
  lemma ScanHasErrors(env: Env, skipName: bool, skipHash: bool, absolute: bool, roots: seq<Path>)
    ensures var s := NewScanner(skipName, skipHash, absolute);
      HasErrors(ScanDirs(env, s, roots))
      <==> ErrorsOf(env, s.opts, AllVisits(env, roots)) != {} || RootErrors(env, roots) != {}
  {
    var s := NewScanner(skipName, skipHash, absolute);
    var r := ScanDirs(env, s, roots);
    ScanDirsErrorKeys(env, s, roots);
    NonEmptyMap(r.errMap);
    assert s.errMap.Keys == {};
  }

  /** With no empty record, a map of records is non-empty exactly when one of its records has an entry for some check. */
  lemma RecordsNonEmpty(s: Scanner)
    requires NoEmptyRecords(s)
    ensures FoundDuplicates(s)
            <==> Total(s.duplicateMap, ByName) > 0 || Total(s.duplicateMap, ByHash) > 0
  {
    var m := s.duplicateMap;
    TotalOverPositive(m, m.Keys, ByName);
    TotalOverPositive(m, m.Keys, ByHash);
    NonEmptyMap(m);
    if m.Keys != {} {
      var k :| k in m.Keys;
      assert !m[k].IsEmpty();
      assert m[k].Of(ByName) != [] || m[k].Of(ByHash) != [];
    }
  }

  /** A scan from a new scanner finds duplicates exactly when two classified files share a base name or a content hash. */
  lemma ScanFoundDuplicates(env: Env, skipName: bool, skipHash: bool, absolute: bool, roots: seq<Path>)
    ensures var s := NewScanner(skipName, skipHash, absolute);
      var vs := AllVisits(env, roots);
      FoundDuplicates(ScanDirs(env, s, roots))
      <==> Repeated(env, s.opts, vs, ByName) || Repeated(env, s.opts, vs, ByHash)
  {
    var s := NewScanner(skipName, skipHash, absolute);
    var r := ScanDirs(env, s, roots);
    var vs := AllVisits(env, roots);
    NewScannerValid(env, skipName, skipHash, absolute);
    ScanDirsValid(env, s, roots);
    RecordsNonEmpty(r);
    ScanCounts(env, skipName, skipHash, absolute, roots, ByName);
    ScanCounts(env, skipName, skipHash, absolute, roots, ByHash);
    CountExceedsKeys(env, s.opts, vs, ByName);
    CountExceedsKeys(env, s.opts, vs, ByHash);
  }

  /** The members of a group after its first. */
  function Later(g: seq<Path>): seq<Path> {
    if g == [] then [] else g[1..]
  }

  /** Check `c` put path `p` after the first carrier of some key. */
  ghost predicate Attached(env: Env, opts: Options, vs: seq<Visit>, p: Path) {
    exists c: Check, k: string :: p in Later(Classified(env, opts, vs, c, k))
  }

  lemma ListedAttached(env: Env, opts: Options, vs: seq<Visit>, r: Scanner, c: Check, q: Path, p: Path)
    requires Grouped(env, r, c) && GroupsOf(env, opts, vs, r, c)
    requires q in r.duplicateMap && p in r.duplicateMap[q].Of(c)
    ensures Attached(env, opts, vs, p)
  {
    var k := KeyOfPath(env, c, q).value;
    assert GroupAt(r, c, Classified(env, opts, vs, c, k), k);
  }

  lemma AttachedListed(env: Env, opts: Options, vs: seq<Visit>, r: Scanner, c: Check, k: string, p: Path)
    requires GroupsOf(env, opts, vs, r, c)
    requires p in Later(Classified(env, opts, vs, c, k))
    ensures p in DuplicatePaths(r.duplicateMap)
  {
    assert GroupAt(r, c, Classified(env, opts, vs, c, k), k);
    var q := r.Index(c)[k];
    assert q in r.duplicateMap;
    assert p in r.duplicateMap[q].nameDuplicates + r.duplicateMap[q].hashDuplicates by {
      match c
      case ByName =>
      case ByHash =>
    }
  }

  lemma ListedIsAttached(env: Env, opts: Options, vs: seq<Visit>, r: Scanner, p: Path)
    requires Valid(env, r)
    requires GroupsOf(env, opts, vs, r, ByName) && GroupsOf(env, opts, vs, r, ByHash)
    requires p in DuplicatePaths(r.duplicateMap)
    ensures Attached(env, opts, vs, p)
  {
    var q :| q in r.duplicateMap && p in r.duplicateMap[q].nameDuplicates + r.duplicateMap[q].hashDuplicates;
    if p in r.duplicateMap[q].Of(ByName) {
      ListedAttached(env, opts, vs, r, ByName, q, p);
    } else {
      ListedAttached(env, opts, vs, r, ByHash, q, p);
    }
  }

  /**
    After a scan from a new scanner, a path is a reported duplicate exactly
    when, under one of the checks, it was classified after the first file
    that carried its key.
  */
  lemma ScanDuplicatePaths(env: Env, skipName: bool, skipHash: bool, absolute: bool, roots: seq<Path>, p: Path)
    ensures var s := NewScanner(skipName, skipHash, absolute);
      p in DuplicatePaths(ScanDirs(env, s, roots).duplicateMap) <==> Attached(env, s.opts, AllVisits(env, roots), p)
  {
    var s := NewScanner(skipName, skipHash, absolute);
    var r := ScanDirs(env, s, roots);
    var vs := AllVisits(env, roots);
    NewScannerValid(env, skipName, skipHash, absolute);
    ScanDirsValid(env, s, roots);
    ScanGroups(env, skipName, skipHash, absolute, roots, ByName);
    ScanGroups(env, skipName, skipHash, absolute, roots, ByHash);
    if p in DuplicatePaths(r.duplicateMap) {
      ListedIsAttached(env, s.opts, vs, r, p);
    }
    if Attached(env, s.opts, vs, p) {
      var c: Check, k: string :| p in Later(Classified(env, s.opts, vs, c, k));
      if c == ByName {
        AttachedListed(env, s.opts, vs, r, ByName, k, p);
      } else {
        AttachedListed(env, s.opts, vs, r, ByHash, k, p);
      }
    }
  }

  /** The flat list of a valid state is empty exactly when no duplicate was found. */
  lemma FlatEmptyIffNone(s: Scanner)
    requires NoEmptyRecords(s)
    ensures DuplicatePaths(s.duplicateMap) == {} <==> !FoundDuplicates(s)
  {
    var m := s.duplicateMap;
    NonEmptyMap(m);
    if m.Keys != {} {
      var k :| k in m.Keys;
      assert !m[k].IsEmpty();
      var p := if m[k].nameDuplicates != [] then m[k].nameDuplicates[0] else m[k].hashDuplicates[0];
      assert p in m[k].nameDuplicates + m[k].hashDuplicates;
      assert p in DuplicatePaths(m);
    }
  }

  /** A failed resolution's error is replaced by a later error for the same raw path. */
  lemma AbsErrorReplaced(env: Env, s: Scanner, raw: Path, e: Msg)
    ensures RecordAbsError(env, s, raw).errMap[raw := e] == s.errMap[raw := e]
  {
    if s.opts.absolute && env.abs(raw).err.Some? {
      var x := env.abs(raw).err.value;
      assert RecordAbsError(env, s, raw).errMap == s.errMap[raw := x];
    }
  }

  /** A file whose hash fails changes nothing about the content check. */
  lemma HashFailureKeepsContent(env: Env, s: Scanner, v: Visit, e: Msg)
    requires !v.isDir && !s.opts.skipHash
    requires env.hashFile(NormalizedPath(env, s.opts, v.path)) == Failure(e)
    ensures SameFor(s, VisitFile(env, s, v), ByHash)
  {
    var wpath := NormalizedPath(env, s.opts, v.path);
    var s1 := RecordAbsError(env, s, v.path);
    var s2 := CheckName(env, s1, wpath);
    VisitFileUnfold(env, s, v);
    SameForStrip(s, s1, ByHash);
    CheckNameApplied(env, s1, wpath, ByHash);
    CheckHashApplied(env, s2, v.path, wpath, ByHash);
    SameForTrans(s, s1, s2, ByHash);
    SameForTrans(s, s2, VisitFile(env, s, v), ByHash);
  }

  /** States that agree on the content check have the same content index and content sequences. */
  lemma SameContent(s: Scanner, r: Scanner)
    requires SameFor(s, r, ByHash)
    ensures r.hashMap == s.hashMap
    ensures forall p :: r.RecordOf(p).hashDuplicates == s.RecordOf(p).hashDuplicates
  {
    forall p ensures r.RecordOf(p).hashDuplicates == s.RecordOf(p).hashDuplicates {
      assert r.RecordOf(p).Of(ByHash) == s.RecordOf(p).Of(ByHash);
    }
  }

  /** A file whose hash fails is still checked by name, and its raw path ends with the hash error. */
  lemma HashFailureNameOnly(env: Env, s: Scanner, v: Visit, e: Msg)
    requires !v.isDir && !s.opts.skipHash
    requires env.hashFile(NormalizedPath(env, s.opts, v.path)) == Failure(e)
    ensures var r := VisitFile(env, s, v);
      && r.errMap == s.errMap[v.path := e]
      && Strip(r) == Strip(CheckName(env, s, NormalizedPath(env, s.opts, v.path)))
  {
    var wpath := NormalizedPath(env, s.opts, v.path);
    var s1 := RecordAbsError(env, s, v.path);
    var s2 := CheckName(env, s1, wpath);
    assert VisitFile(env, s, v) == RecordError(s2, v.path, e);
    AbsErrorReplaced(env, s, v.path, e);
    CheckNameStrip(env, s1, s, wpath);
  }

  /**
    A file whose hash fails leaves the content index and every content
    sequence as they were; its name is still checked, and the hash error is
    what ends up stored under its raw path, replacing an error from resolving
    its absolute path.
  */
  lemma VisitHashFailure(env: Env, s: Scanner, v: Visit, e: Msg)
    requires !v.isDir && !s.opts.skipHash
    requires env.hashFile(NormalizedPath(env, s.opts, v.path)) == Failure(e)
    ensures var r := VisitFile(env, s, v);
      && r.hashMap == s.hashMap
      && (forall p :: r.RecordOf(p).hashDuplicates == s.RecordOf(p).hashDuplicates)
      && r.errMap == s.errMap[v.path := e]
      && Strip(r) == Strip(CheckName(env, s, NormalizedPath(env, s.opts, v.path)))
  {
    HashFailureKeepsContent(env, s, v, e);
    SameContent(s, VisitFile(env, s, v));
    HashFailureNameOnly(env, s, v, e);
  }
}
