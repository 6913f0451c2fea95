/**
  The counting law of a scan: with a check enabled, every classified file
  either adds a new key to that check's index or appends exactly one
  duplicate. Hence the duplicates a check attached number the files it
  classified minus the distinct keys it saw, and a check attached anything
  exactly when two visited files share a key.
*/
module Counting {
  import opened Wrappers
  import opened Doppler
  import opened Composition

  // ---------------------------------------------------------------------------
  // Sums over the records of a duplicate map.
  // ---------------------------------------------------------------------------

  /** The number of duplicates check `c` attached to the records whose paths are in `keys`. */
  ghost function TotalOver(m: map<Path, Duplicates>, keys: set<Path>, c: Check): nat
    requires keys <= m.Keys
    decreases keys
  {
    if keys == {} then 0
    else
      var k :| k in keys;
      |m[k].Of(c)| + TotalOver(m, keys - {k}, c)
  }

  /** The number of duplicates check `c` attached, over all records. */
  ghost function Total(m: map<Path, Duplicates>, c: Check): nat {
    TotalOver(m, m.Keys, c)
  }

  lemma {:induction false} TotalOverPick(m: map<Path, Duplicates>, keys: set<Path>, c: Check, x: Path)
    requires keys <= m.Keys && x in keys
    ensures TotalOver(m, keys, c) == |m[x].Of(c)| + TotalOver(m, keys - {x}, c)
    decreases keys
  {
    var k :| k in keys && TotalOver(m, keys, c) == |m[k].Of(c)| + TotalOver(m, keys - {k}, c);
    if k != x {
      TotalOverPick(m, keys - {k}, c, x);
      TotalOverPick(m, keys - {x}, c, k);
      assert keys - {k} - {x} == keys - {x} - {k};
    }
  }

  lemma {:induction false} TotalOverAgree(m: map<Path, Duplicates>, m': map<Path, Duplicates>, keys: set<Path>, c: Check)
    requires keys <= m.Keys && keys <= m'.Keys
    requires forall k :: k in keys ==> m[k].Of(c) == m'[k].Of(c)
    ensures TotalOver(m, keys, c) == TotalOver(m', keys, c)
    decreases keys
  {
    if keys != {} {
      var k :| k in keys;
      TotalOverPick(m, keys, c, k);
      TotalOverPick(m', keys, c, k);
      TotalOverAgree(m, m', keys - {k}, c);
    }
  }

  /** A sum of lengths is positive exactly when one of its records is non-empty. */
  lemma {:induction false} TotalOverPositive(m: map<Path, Duplicates>, keys: set<Path>, c: Check)
    requires keys <= m.Keys
    ensures TotalOver(m, keys, c) > 0 <==> exists k :: k in keys && m[k].Of(c) != []
    decreases keys
  {
    if keys != {} {
      var k :| k in keys;
      TotalOverPick(m, keys, c, k);
      TotalOverPositive(m, keys - {k}, c);
      if TotalOver(m, keys - {k}, c) > 0 {
        var k' :| k' in keys - {k} && m[k'].Of(c) != [];
        assert k' in keys;
      }
    }
  }

  /** Appending one duplicate under check `c` adds one to that check's total and nothing to the other's. */
  lemma AddDuplicateTotals(s: Scanner, c: Check, path: Path, duplPath: Path)
    ensures var r := AddDuplicate(s, c, path, duplPath);
      && Total(r.duplicateMap, c) == Total(s.duplicateMap, c) + 1
      && Total(r.duplicateMap, c.Other()) == Total(s.duplicateMap, c.Other())
  {
    var r := AddDuplicate(s, c, path, duplPath);
    var m, m' := s.duplicateMap, r.duplicateMap;
    var rest := m.Keys - {path};
    TotalOverPick(m', m'.Keys, c, path);
    TotalOverPick(m', m'.Keys, c.Other(), path);
    assert m'.Keys - {path} == rest;
    TotalOverAgree(m, m', rest, c);
    TotalOverAgree(m, m', rest, c.Other());
    if path in m {
      TotalOverPick(m, m.Keys, c, path);
      TotalOverPick(m, m.Keys, c.Other(), path);
    } else {
      assert rest == m.Keys;
    }
  }

  // ---------------------------------------------------------------------------
  // The counting law, step by step.
  // ---------------------------------------------------------------------------

  /** Duplicates attached plus keys indexed: grows by one for every file check `c` classifies. */
  ghost function Measure(s: Scanner, c: Check): nat {
    Total(s.duplicateMap, c) + |s.Index(c)|
  }

  lemma ClassifyMeasure(s: Scanner, c: Check, key: string, wpath: Path)
    ensures var r := Classify(s, c, key, wpath);
      Measure(r, c) == Measure(s, c) + 1 && Measure(r, c.Other()) == Measure(s, c.Other())
  {
    if key in s.Index(c) {
      AddDuplicateTotals(s, c, s.Index(c)[key], wpath);
    }
  }

  lemma CheckNameMeasure(env: Env, s: Scanner, wpath: Path, c: Check)
    ensures Measure(CheckName(env, s, wpath), c)
            == Measure(s, c) + (if c == ByName && !s.opts.skipName then 1 else 0)
  {
    if !s.opts.skipName {
      ClassifyMeasure(s, ByName, env.base(wpath), wpath);
    }
  }

  lemma CheckHashMeasure(env: Env, s: Scanner, raw: Path, wpath: Path, c: Check)
    ensures Measure(CheckHash(env, s, raw, wpath), c)
            == Measure(s, c) + (if c == ByHash && !s.opts.skipHash && env.hashFile(wpath).Success? then 1 else 0)
  {
    if !s.opts.skipHash {
      match env.hashFile(wpath)
      case Failure(e) =>
      case Success(h) => ClassifyMeasure(s, ByHash, h, wpath);
    }
  }

  function Indicator(k: Option<string>): nat {
    if k.Some? then 1 else 0
  }

  lemma MeasureStrip(a: Scanner, b: Scanner, c: Check)
    requires Strip(a) == Strip(b)
    ensures Measure(a, c) == Measure(b, c)
  {
    assert a.duplicateMap == b.duplicateMap && a.Index(c) == b.Index(c);
  }

  /** One visit adds one to the measure of every check that classifies it. */
  lemma VisitFileMeasure(env: Env, s: Scanner, v: Visit, c: Check)
    ensures Measure(VisitFile(env, s, v), c) == Measure(s, c) + Indicator(KeyOf(env, s.opts, v, c))
  {
    if !v.isDir {
      var wpath := NormalizedPath(env, s.opts, v.path);
      var s1 := RecordAbsError(env, s, v.path);
      var s2 := CheckName(env, s1, wpath);
      VisitFileUnfold(env, s, v);
      MeasureStrip(s, s1, c);
      CheckNameMeasure(env, s1, wpath, c);
      CheckHashMeasure(env, s2, v.path, wpath, c);
      VisitFileMeasureCases(env, s, v, c, wpath);
    }
  }

  lemma VisitFileMeasureCases(env: Env, s: Scanner, v: Visit, c: Check, wpath: Path)
    requires !v.isDir && wpath == NormalizedPath(env, s.opts, v.path)
    ensures Indicator(KeyOf(env, s.opts, v, c))
            == (if c == ByName && !s.opts.skipName then 1 else 0)
             + (if c == ByHash && !s.opts.skipHash && env.hashFile(wpath).Success? then 1 else 0)
  {
  }

  /** The number of visits check `c` classifies. */
  function Count(env: Env, opts: Options, vs: seq<Visit>, c: Check): nat
    decreases |vs|
  {
    if vs == [] then 0 else Indicator(KeyOf(env, opts, vs[0], c)) + Count(env, opts, vs[1..], c)
  }

  lemma {:induction false} CountAppend(env: Env, opts: Options, vs: seq<Visit>, ws: seq<Visit>, c: Check)
    ensures Count(env, opts, vs + ws, c) == Count(env, opts, vs, c) + Count(env, opts, ws, c)
    decreases |vs|
  {
    if vs != [] {
      assert (vs + ws)[1..] == vs[1..] + ws;
      CountAppend(env, opts, vs[1..], ws, c);
    } else {
      assert vs + ws == ws;
    }
  }

  lemma {:induction false} FoldVisitsMeasure(env: Env, s: Scanner, vs: seq<Visit>, c: Check)
    ensures Measure(FoldVisits(env, s, vs), c) == Measure(s, c) + Count(env, s.opts, vs, c)
    decreases |vs|
  {
    if vs != [] {
      var s1 := VisitFile(env, s, vs[0]);
      VisitFileMeasure(env, s, vs[0], c);
      FoldVisitsMeasure(env, s1, vs[1..], c);
    }
  }

  lemma {:induction false} ScanDirsMeasure(env: Env, s: Scanner, roots: seq<Path>, c: Check)
    ensures Measure(ScanDirs(env, s, roots), c) == Measure(s, c) + Count(env, s.opts, AllVisits(env, roots), c)
    decreases |roots|
  {
    if roots != [] {
      var first := env.walk(roots[0]).visits;
      var walked := FoldVisits(env, s, first);
      var s1 := ScanRoot(env, s, roots[0]);
      FoldVisitsMeasure(env, s, first, c);
      MeasureStrip(s1, walked, c);
      ScanDirsMeasure(env, s1, roots[1..], c);
      CountAppend(env, s.opts, first, AllVisits(env, roots[1..]), c);
    }
  }

  // ---------------------------------------------------------------------------
  // Keys and repeats.
  // ---------------------------------------------------------------------------

  /** Two distinct visits are classified by check `c` under the same key. */
  ghost predicate Repeated(env: Env, opts: Options, vs: seq<Visit>, c: Check) {
    exists i, j :: 0 <= i < j < |vs| && KeyOf(env, opts, vs[i], c).Some? && KeyOf(env, opts, vs[i], c) == KeyOf(env, opts, vs[j], c)
  }

  lemma {:induction false} KeysOfMembers(env: Env, opts: Options, vs: seq<Visit>, c: Check, k: string)
    ensures k in KeysOf(env, opts, vs, c) <==> exists j :: 0 <= j < |vs| && KeyOf(env, opts, vs[j], c) == Some(k)
    decreases |vs|
  {
    if vs != [] {
      KeysOfMembers(env, opts, vs[1..], c, k);
      if exists j :: 0 <= j < |vs| && KeyOf(env, opts, vs[j], c) == Some(k) {
        var j :| 0 <= j < |vs| && KeyOf(env, opts, vs[j], c) == Some(k);
        if j > 0 {
          assert vs[1..][j - 1] == vs[j];
        }
      }
      if k in KeysOf(env, opts, vs[1..], c) {
        var j :| 0 <= j < |vs[1..]| && KeyOf(env, opts, vs[1..][j], c) == Some(k);
        assert vs[j + 1] == vs[1..][j];
      }
    }
  }

  lemma RepeatedTail(env: Env, opts: Options, vs: seq<Visit>, c: Check)
    requires vs != [] && Repeated(env, opts, vs[1..], c)
    ensures Repeated(env, opts, vs, c)
  {
    var rest := vs[1..];
    var i, j :| 0 <= i < j < |rest| && KeyOf(env, opts, rest[i], c).Some? && KeyOf(env, opts, rest[i], c) == KeyOf(env, opts, rest[j], c);
    assert vs[i + 1] == rest[i] && vs[j + 1] == rest[j];
  }

  lemma RepeatedHead(env: Env, opts: Options, vs: seq<Visit>, c: Check)
    requires vs != [] && KeyOf(env, opts, vs[0], c).Some?
    requires KeyOf(env, opts, vs[0], c).value in KeysOf(env, opts, vs[1..], c)
    ensures Repeated(env, opts, vs, c)
  {
    var rest := vs[1..];
    var key := KeyOf(env, opts, vs[0], c);
    KeysOfMembers(env, opts, rest, c, key.value);
    var j :| 0 <= j < |rest| && KeyOf(env, opts, rest[j], c) == key;
    assert vs[j + 1] == rest[j];
  }

  lemma RepeatedSplit(env: Env, opts: Options, vs: seq<Visit>, c: Check)
    requires vs != [] && Repeated(env, opts, vs, c)
    ensures var key := KeyOf(env, opts, vs[0], c);
      Repeated(env, opts, vs[1..], c) || (key.Some? && key.value in KeysOf(env, opts, vs[1..], c))
  {
    var rest := vs[1..];
    var i, j :| 0 <= i < j < |vs| && KeyOf(env, opts, vs[i], c).Some? && KeyOf(env, opts, vs[i], c) == KeyOf(env, opts, vs[j], c);
    if i > 0 {
      assert rest[i - 1] == vs[i] && rest[j - 1] == vs[j];
    } else {
      KeysOfMembers(env, opts, rest, c, KeyOf(env, opts, vs[0], c).value);
      assert rest[j - 1] == vs[j];
    }
  }

  /** A sequence repeats a key exactly when its tail does or its head's key recurs in the tail. */
  lemma RepeatedCons(env: Env, opts: Options, vs: seq<Visit>, c: Check)
    requires vs != []
    ensures var key := KeyOf(env, opts, vs[0], c);
      Repeated(env, opts, vs, c)
      <==> Repeated(env, opts, vs[1..], c) || (key.Some? && key.value in KeysOf(env, opts, vs[1..], c))
  {
    var key := KeyOf(env, opts, vs[0], c);
    if Repeated(env, opts, vs[1..], c) {
      RepeatedTail(env, opts, vs, c);
    }
    if key.Some? && key.value in KeysOf(env, opts, vs[1..], c) {
      RepeatedHead(env, opts, vs, c);
    }
    if Repeated(env, opts, vs, c) {
      RepeatedSplit(env, opts, vs, c);
    }
  }

  /**
    A check classifies at least as many files as it sees distinct keys, and
    strictly more exactly when two files share a key.
  */
  lemma {:induction false} CountExceedsKeys(env: Env, opts: Options, vs: seq<Visit>, c: Check)
    ensures Count(env, opts, vs, c) >= |KeysOf(env, opts, vs, c)|
    ensures Count(env, opts, vs, c) > |KeysOf(env, opts, vs, c)| <==> Repeated(env, opts, vs, c)
    decreases |vs|
  {
    if vs != [] {
      var rest := vs[1..];
      var key := KeyOf(env, opts, vs[0], c);
      CountExceedsKeys(env, opts, rest, c);
      RepeatedCons(env, opts, vs, c);
      if key.Some? && key.value in KeysOf(env, opts, rest, c) {
        assert KeysOf(env, opts, vs, c) == KeysOf(env, opts, rest, c);
      } else if key.Some? {
        assert |KeysOf(env, opts, vs, c)| == |KeysOf(env, opts, rest, c)| + 1;
      } else {
        assert KeysOf(env, opts, vs, c) == KeysOf(env, opts, rest, c);
      }
    }
  }

  // ---------------------------------------------------------------------------
  // The law for a whole scan.
  // ---------------------------------------------------------------------------

  /**
    After scanning `roots` from a new scanner, the duplicates check `c`
    attached number the files it classified minus the distinct keys it saw,
    and its index holds exactly those keys.
  */
  lemma ScanCounts(env: Env, skipName: bool, skipHash: bool, absolute: bool, roots: seq<Path>, c: Check)
    ensures var s := NewScanner(skipName, skipHash, absolute);
      var r := ScanDirs(env, s, roots);
      var vs := AllVisits(env, roots);
      && r.Index(c).Keys == KeysOf(env, s.opts, vs, c)
      && Total(r.duplicateMap, c) == Count(env, s.opts, vs, c) - |KeysOf(env, s.opts, vs, c)|
  {
    var s := NewScanner(skipName, skipHash, absolute);
    var r := ScanDirs(env, s, roots);
    var vs := AllVisits(env, roots);
    ScanDirsMeasure(env, s, roots, c);
    ScanDirsIndexKeys(env, s, roots, c);
    CountExceedsKeys(env, s.opts, vs, c);
    assert Measure(s, c) == 0;
    assert |r.Index(c)| == |r.Index(c).Keys|;
  }
}
