/**
  The invariant every reachable scanner state keeps, and its preservation by
  each step of a scan.

  A state is valid for an environment when
  - no record is empty (records are created only to be appended to),
  - a disabled check has an empty index and appended nothing,
  - for each check, every index entry maps a key to a path that carries that
    key, every record holding duplicates of that check is keyed by the path
    the index names for its key, and every duplicate carries its
    representative's key.
*/
module Invariants {
  import opened Wrappers
  import opened Doppler

  ghost predicate NoEmptyRecords(s: Scanner) {
    forall p :: p in s.duplicateMap ==> !s.duplicateMap[p].IsEmpty()
  }

  ghost predicate DisabledUntouched(s: Scanner, c: Check) {
    !s.opts.Enabled(c) ==>
      && s.Index(c) == map[]
      && forall p :: p in s.duplicateMap ==> s.duplicateMap[p].Of(c) == []
  }

  /** Every index entry of check `c` names a path that carries its key. */
  ghost predicate IndexSound(env: Env, s: Scanner, c: Check) {
    forall k :: k in s.Index(c) ==> KeyOfPath(env, c, s.Index(c)[k]) == Some(k)
  }

  /** A record holding duplicates of check `c` belongs to the representative its key is indexed under. */
  ghost predicate RecordsKeyed(env: Env, s: Scanner, c: Check) {
    forall p :: p in s.duplicateMap && s.duplicateMap[p].Of(c) != [] ==>
      && KeyOfPath(env, c, p).Some?
      && KeyOfPath(env, c, p).value in s.Index(c)
      && s.Index(c)[KeyOfPath(env, c, p).value] == p
  }

  /** Every duplicate of check `c` carries the same key as its representative. */
  ghost predicate MembersShareKey(env: Env, s: Scanner, c: Check) {
    forall p, i :: p in s.duplicateMap && 0 <= i < |s.duplicateMap[p].Of(c)| ==>
      KeyOfPath(env, c, s.duplicateMap[p].Of(c)[i]) == KeyOfPath(env, c, p)
  }

  ghost predicate Grouped(env: Env, s: Scanner, c: Check) {
    IndexSound(env, s, c) && RecordsKeyed(env, s, c) && MembersShareKey(env, s, c)
  }

  ghost predicate Valid(env: Env, s: Scanner) {
    && NoEmptyRecords(s)
    && DisabledUntouched(s, ByName) && DisabledUntouched(s, ByHash)
    && Grouped(env, s, ByName) && Grouped(env, s, ByHash)
  }

  lemma NewScannerValid(env: Env, skipName: bool, skipHash: bool, absolute: bool)
    ensures Valid(env, NewScanner(skipName, skipHash, absolute))
  {
  }

  lemma RecordErrorValid(env: Env, s: Scanner, path: Path, msg: Msg)
    requires Valid(env, s)
    ensures Valid(env, RecordError(s, path, msg))
  {
  }

  /** Appending under check `c` leaves the invariants of the other check intact. */
  lemma ClassifyKeepsOther(env: Env, s: Scanner, c: Check, key: string, wpath: Path)
    requires Grouped(env, s, c.Other()) && DisabledUntouched(s, c.Other())
    ensures var r := Classify(s, c, key, wpath);
      Grouped(env, r, c.Other()) && DisabledUntouched(r, c.Other())
  {
    var r := Classify(s, c, key, wpath);
    var o := c.Other();
    forall p | p in r.duplicateMap && r.duplicateMap[p].Of(o) != []
      ensures p in s.duplicateMap && r.duplicateMap[p].Of(o) == s.duplicateMap[p].Of(o)
    {
    }
    forall p | p in r.duplicateMap
      ensures r.duplicateMap[p].Of(o) == s.RecordOf(p).Of(o)
    {
    }
  }

  lemma ClassifyOwnIndex(env: Env, s: Scanner, c: Check, wpath: Path)
    requires IndexSound(env, s, c) && KeyOfPath(env, c, wpath).Some?
    ensures IndexSound(env, Classify(s, c, KeyOfPath(env, c, wpath).value, wpath), c)
  {
  }

  lemma ClassifyOwnRecords(env: Env, s: Scanner, c: Check, wpath: Path)
    requires IndexSound(env, s, c) && RecordsKeyed(env, s, c) && NoEmptyRecords(s)
    requires KeyOfPath(env, c, wpath).Some?
    ensures var r := Classify(s, c, KeyOfPath(env, c, wpath).value, wpath);
      RecordsKeyed(env, r, c) && NoEmptyRecords(r)
  {
    var key := KeyOfPath(env, c, wpath).value;
    if key in s.Index(c) {
      assert KeyOfPath(env, c, s.Index(c)[key]) == Some(key);
    }
  }

  lemma ClassifyOwnMembers(env: Env, s: Scanner, c: Check, wpath: Path)
    requires IndexSound(env, s, c) && MembersShareKey(env, s, c)
    requires KeyOfPath(env, c, wpath).Some?
    ensures MembersShareKey(env, Classify(s, c, KeyOfPath(env, c, wpath).value, wpath), c)
  {
    var key := KeyOfPath(env, c, wpath).value;
    var r := Classify(s, c, key, wpath);
    if key in s.Index(c) {
      var first := s.Index(c)[key];
      assert KeyOfPath(env, c, first) == Some(key);
      forall p, i | p in r.duplicateMap && 0 <= i < |r.duplicateMap[p].Of(c)|
        ensures KeyOfPath(env, c, r.duplicateMap[p].Of(c)[i]) == KeyOfPath(env, c, p)
      {
        if p == first && i == |r.duplicateMap[p].Of(c)| - 1 {
          assert r.duplicateMap[p].Of(c)[i] == wpath;
        } else if p == first {
          assert r.duplicateMap[p].Of(c)[i] == s.duplicateMap[p].Of(c)[i];
        }
      }
    }
  }

  /** Classifying `wpath` under its own key keeps the invariants of check `c`. */
  lemma ClassifyKeepsOwn(env: Env, s: Scanner, c: Check, wpath: Path)
    requires Grouped(env, s, c) && s.opts.Enabled(c) && NoEmptyRecords(s)
    requires KeyOfPath(env, c, wpath).Some?
    ensures var r := Classify(s, c, KeyOfPath(env, c, wpath).value, wpath);
      Grouped(env, r, c) && DisabledUntouched(r, c) && NoEmptyRecords(r)
  {
    ClassifyOwnIndex(env, s, c, wpath);
    ClassifyOwnRecords(env, s, c, wpath);
    ClassifyOwnMembers(env, s, c, wpath);
  }

  lemma CheckNameValid(env: Env, s: Scanner, wpath: Path)
    requires Valid(env, s)
    ensures Valid(env, CheckName(env, s, wpath))
  {
    if !s.opts.skipName {
      ClassifyKeepsOther(env, s, ByName, env.base(wpath), wpath);
      ClassifyKeepsOwn(env, s, ByName, wpath);
    }
  }

  lemma CheckHashValid(env: Env, s: Scanner, raw: Path, wpath: Path)
    requires Valid(env, s)
    ensures Valid(env, CheckHash(env, s, raw, wpath))
  {
    if !s.opts.skipHash {
      match env.hashFile(wpath)
      case Failure(e) =>
        RecordErrorValid(env, s, raw, e);
      case Success(h) =>
        ClassifyKeepsOther(env, s, ByHash, h, wpath);
        ClassifyKeepsOwn(env, s, ByHash, wpath);
    }
  }

  /** The walk callback keeps the scanner valid. */
  lemma VisitFileValid(env: Env, s: Scanner, v: Visit)
    requires Valid(env, s)
    ensures Valid(env, VisitFile(env, s, v))
  {
    if !v.isDir {
      var wpath := NormalizedPath(env, s.opts, v.path);
      var s1 := RecordAbsError(env, s, v.path);
      if s.opts.absolute && env.abs(v.path).err.Some? {
        RecordErrorValid(env, s, v.path, env.abs(v.path).err.value);
      }
      var s2 := CheckName(env, s1, wpath);
      CheckNameValid(env, s1, wpath);
      CheckHashValid(env, s2, v.path, wpath);
    }
  }

  lemma {:induction false} FoldVisitsValid(env: Env, s: Scanner, vs: seq<Visit>)
    requires Valid(env, s)
    ensures Valid(env, FoldVisits(env, s, vs))
    decreases |vs|
  {
    if vs != [] {
      VisitFileValid(env, s, vs[0]);
      FoldVisitsValid(env, VisitFile(env, s, vs[0]), vs[1..]);
    }
  }

  lemma {:induction false} ScanDirsValid(env: Env, s: Scanner, roots: seq<Path>)
    requires Valid(env, s)
    ensures Valid(env, ScanDirs(env, s, roots))
    decreases |roots|
  {
    if roots != [] {
      var res := ScanDir(env, s, roots[0]);
      FoldVisitsValid(env, s, env.walk(roots[0]).visits);
      if res.err.Some? {
        RecordErrorValid(env, res.scanner, roots[0], res.err.value);
      }
      ScanDirsValid(env, ScanRoot(env, s, roots[0]), roots[1..]);
    }
  }

  /**
    The grouping a finished scan reports: every record holds duplicates of
    its own key only, and its key is indexed under the record's path.
  */
  lemma ScanGrouped(env: Env, skipName: bool, skipHash: bool, absolute: bool, roots: seq<Path>)
    ensures var r := ScanDirs(env, NewScanner(skipName, skipHash, absolute), roots);
      && NoEmptyRecords(r)
      && (forall p, i :: p in r.duplicateMap && 0 <= i < |r.duplicateMap[p].nameDuplicates| ==>
            env.base(r.duplicateMap[p].nameDuplicates[i]) == env.base(p))
      && (forall p, i :: p in r.duplicateMap && 0 <= i < |r.duplicateMap[p].hashDuplicates| ==>
            env.hashFile(r.duplicateMap[p].hashDuplicates[i]) == env.hashFile(p) && env.hashFile(p).Success?)
      && (forall p :: p in r.duplicateMap && r.duplicateMap[p].nameDuplicates != [] ==>
            env.base(p) in r.nameMap && r.nameMap[env.base(p)] == p)
  {
    var s := NewScanner(skipName, skipHash, absolute);
    NewScannerValid(env, skipName, skipHash, absolute);
    ScanDirsValid(env, s, roots);
    var r := ScanDirs(env, s, roots);
    forall p, i | p in r.duplicateMap && 0 <= i < |r.duplicateMap[p].nameDuplicates|
      ensures env.base(r.duplicateMap[p].nameDuplicates[i]) == env.base(p)
    {
      assert r.duplicateMap[p].nameDuplicates == r.duplicateMap[p].Of(ByName);
      assert KeyOfPath(env, ByName, r.duplicateMap[p].Of(ByName)[i]) == KeyOfPath(env, ByName, p);
    }
    forall p, i | p in r.duplicateMap && 0 <= i < |r.duplicateMap[p].hashDuplicates|
      ensures env.hashFile(r.duplicateMap[p].hashDuplicates[i]) == env.hashFile(p) && env.hashFile(p).Success?
    {
      assert r.duplicateMap[p].hashDuplicates == r.duplicateMap[p].Of(ByHash);
      assert KeyOfPath(env, ByHash, r.duplicateMap[p].Of(ByHash)[i]) == KeyOfPath(env, ByHash, p);
      assert KeyOfPath(env, ByHash, p).Some?;
    }
    forall p | p in r.duplicateMap && r.duplicateMap[p].nameDuplicates != []
      ensures env.base(p) in r.nameMap && r.nameMap[env.base(p)] == p
    {
      assert r.duplicateMap[p].Of(ByName) != [];
    }
  }

  /** A skipped check indexes nothing and attaches no duplicate; the scan is otherwise unaffected. */
  lemma ScanSkipped(env: Env, skipName: bool, skipHash: bool, absolute: bool, roots: seq<Path>)
    ensures var r := ScanDirs(env, NewScanner(skipName, skipHash, absolute), roots);
      && (skipName ==> r.nameMap == map[] && forall p :: p in r.duplicateMap ==> r.duplicateMap[p].nameDuplicates == [])
      && (skipHash ==> r.hashMap == map[] && forall p :: p in r.duplicateMap ==> r.duplicateMap[p].hashDuplicates == [])
  {
    var s := NewScanner(skipName, skipHash, absolute);
    NewScannerValid(env, skipName, skipHash, absolute);
    ScanDirsValid(env, s, roots);
    var r := ScanDirs(env, s, roots);
    assert r.opts == s.opts;
    if skipName {
      forall p | p in r.duplicateMap ensures r.duplicateMap[p].nameDuplicates == [] {
        assert r.duplicateMap[p].Of(ByName) == [];
      }
    }
    if skipHash {
      forall p | p in r.duplicateMap ensures r.duplicateMap[p].hashDuplicates == [] {
        assert r.duplicateMap[p].Of(ByHash) == [];
      }
    }
  }
}
