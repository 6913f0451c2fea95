/**
  How scans compose. A walk is processed visit after visit with nothing
  between them, so the state after a sequence of visits is the state after a
  prefix, carried on through the rest; a failing visit does not stop the
  visits after it. Several roots share one session the same way, and apart
  from the error map a multi-root scan is one walk over all roots' visits.
*/
module Composition {
  import opened Wrappers
  import opened Doppler

  /** The session without its error map: what classification produces. */
  function Strip(s: Scanner): Scanner {
    s.(errMap := map[])
  }

  /** Visiting a file after more visits: the fold carries on from where the prefix left it. */
  lemma {:induction false} FoldVisitsAppend(env: Env, s: Scanner, vs: seq<Visit>, ws: seq<Visit>)
    ensures FoldVisits(env, s, vs + ws) == FoldVisits(env, FoldVisits(env, s, vs), ws)
    decreases |vs|
  {
    if vs == [] {
      assert vs + ws == ws;
    } else {
      assert (vs + ws)[1..] == vs[1..] + ws;
      FoldVisitsAppend(env, VisitFile(env, s, vs[0]), vs[1..], ws);
    }
  }

  /** The fold over a non-empty walk is its last visit applied to the fold over the rest. */
  lemma FoldVisitsSnoc(env: Env, s: Scanner, vs: seq<Visit>)
    requires vs != []
    ensures FoldVisits(env, s, vs) == VisitFile(env, FoldVisits(env, s, vs[..|vs| - 1]), vs[|vs| - 1])
  {
    var pre := vs[..|vs| - 1];
    assert vs == pre + [vs[|vs| - 1]];
    FoldVisitsAppend(env, s, pre, [vs[|vs| - 1]]);
    assert [vs[|vs| - 1]][1..] == [];
  }

  /** Scanning roots in two batches is scanning them all, with the session carried over. */
  lemma {:induction false} ScanDirsAppend(env: Env, s: Scanner, roots: seq<Path>, more: seq<Path>)
    ensures ScanDirs(env, s, roots + more) == ScanDirs(env, ScanDirs(env, s, roots), more)
    decreases |roots|
  {
    if roots == [] {
      assert roots + more == more;
    } else {
      assert (roots + more)[1..] == roots[1..] + more;
      ScanDirsAppend(env, ScanRoot(env, s, roots[0]), roots[1..], more);
    }
  }

  /** The walk callback on a file: resolve, check the name, check the content. */
  lemma VisitFileUnfold(env: Env, s: Scanner, v: Visit)
    requires !v.isDir
    ensures var wpath := NormalizedPath(env, s.opts, v.path);
      VisitFile(env, s, v) == CheckHash(env, CheckName(env, RecordAbsError(env, s, v.path), wpath), v.path, wpath)
  {
  }

  lemma RecordAbsErrorStrip(env: Env, a: Scanner, b: Scanner, raw: Path)
    requires Strip(a) == Strip(b)
    ensures Strip(RecordAbsError(env, a, raw)) == Strip(RecordAbsError(env, b, raw))
  {
    assert a.opts == b.opts;
  }

  lemma ClassifyStrip(a: Scanner, b: Scanner, c: Check, key: string, wpath: Path)
    requires Strip(a) == Strip(b)
    ensures Strip(Classify(a, c, key, wpath)) == Strip(Classify(b, c, key, wpath))
  {
    assert a.Index(c) == b.Index(c) && a.duplicateMap == b.duplicateMap;
  }

  lemma CheckNameStrip(env: Env, a: Scanner, b: Scanner, wpath: Path)
    requires Strip(a) == Strip(b)
    ensures Strip(CheckName(env, a, wpath)) == Strip(CheckName(env, b, wpath))
  {
    assert a.opts == b.opts;
    if !a.opts.skipName {
      ClassifyStrip(a, b, ByName, env.base(wpath), wpath);
    }
  }

  lemma CheckHashStrip(env: Env, a: Scanner, b: Scanner, raw: Path, wpath: Path)
    requires Strip(a) == Strip(b)
    ensures Strip(CheckHash(env, a, raw, wpath)) == Strip(CheckHash(env, b, raw, wpath))
  {
    assert a.opts == b.opts;
    if !a.opts.skipHash {
      match env.hashFile(wpath)
      case Failure(e) =>
        assert Strip(RecordError(a, raw, e)) == Strip(a);
        assert Strip(RecordError(b, raw, e)) == Strip(b);
      case Success(h) =>
        ClassifyStrip(a, b, ByHash, h, wpath);
    }
  }

  /** The error map is written by a visit, never read. */
  lemma VisitFileStrip(env: Env, a: Scanner, b: Scanner, v: Visit)
    requires Strip(a) == Strip(b)
    ensures Strip(VisitFile(env, a, v)) == Strip(VisitFile(env, b, v))
  {
    if !v.isDir {
      assert a.opts == b.opts;
      var wpath := NormalizedPath(env, a.opts, v.path);
      var a1, b1 := RecordAbsError(env, a, v.path), RecordAbsError(env, b, v.path);
      RecordAbsErrorStrip(env, a, b, v.path);
      var a2, b2 := CheckName(env, a1, wpath), CheckName(env, b1, wpath);
      CheckNameStrip(env, a1, b1, wpath);
      CheckHashStrip(env, a2, b2, v.path, wpath);
    }
  }

  lemma {:induction false} FoldVisitsStrip(env: Env, a: Scanner, b: Scanner, vs: seq<Visit>)
    requires Strip(a) == Strip(b)
    ensures Strip(FoldVisits(env, a, vs)) == Strip(FoldVisits(env, b, vs))
    decreases |vs|
  {
    if vs != [] {
      VisitFileStrip(env, a, b, vs[0]);
      FoldVisitsStrip(env, VisitFile(env, a, vs[0]), VisitFile(env, b, vs[0]), vs[1..]);
    }
  }

  /**
    Apart from the errors of failed roots, scanning several roots is one walk
    over the visits of all of them, in order.
  */
  lemma {:induction false} ScanDirsIsFold(env: Env, s: Scanner, roots: seq<Path>)
    ensures Strip(ScanDirs(env, s, roots)) == Strip(FoldVisits(env, s, AllVisits(env, roots)))
    decreases |roots|
  {
    if roots != [] {
      var first := env.walk(roots[0]).visits;
      var rest := AllVisits(env, roots[1..]);
      var walked := FoldVisits(env, s, first);
      var s1 := ScanRoot(env, s, roots[0]);
      assert Strip(s1) == Strip(walked);
      ScanDirsIsFold(env, s1, roots[1..]);
      FoldVisitsStrip(env, s1, walked, rest);
      FoldVisitsAppend(env, s, first, rest);
    }
  }
}
