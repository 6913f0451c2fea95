/**
  The duplicate-classification engine of package `doppler`.

  A `Scanner` session owns two write-once indexes (base name -> first path
  seen, content token -> first path seen), the map from a representative path
  to the duplicates attached to it, and the map of per-path errors. Every file
  the walk visits is classified by name and by content against the indexes; a
  repeat is appended to the record of the path that first carried the key.

  The filesystem is not modelled: absolute-path resolution, separator
  conversion, base-name extraction, content hashing and the directory walk are
  the fields of an `Env`, total functions supplied by the caller.
*/
module Doppler {
  import opened Wrappers

  /** A file path, as the walk reports it or as normalized for indexing. */
  type Path = string

  /** The text of an error, as Go's `err.Error()` renders it. */
  type Msg = string

  /** The two independent duplicate checks: by base name and by content hash. */
  datatype Check = ByName | ByHash {
    function Other(): (c: Check)
      ensures c != this
    {
      if this == ByName then ByHash else ByName
    }
  }

  /** The duplicates attached to one representative path, in discovery order. */
  datatype Duplicates = Duplicates(nameDuplicates: seq<Path>, hashDuplicates: seq<Path>) {

    /** The sequence that check `c` appends to. */
    function Of(c: Check): seq<Path> {
      match c
      case ByName => nameDuplicates
      case ByHash => hashDuplicates
    }

    predicate IsEmpty() {
      nameDuplicates == [] && hashDuplicates == []
    }

    function Append(c: Check, p: Path): (d: Duplicates)
      ensures d.Of(c) == Of(c) + [p]
      ensures d.Of(c.Other()) == Of(c.Other())
    {
      match c
      case ByName => this.(nameDuplicates := nameDuplicates + [p])
      case ByHash => this.(hashDuplicates := hashDuplicates + [p])
    }
  }

  /** A freshly allocated record, as `new(Duplicates)` gives it. */
  const NoDuplicates := Duplicates([], [])

  /** The scan options fixed when the scanner is created. */
  datatype Options = Options(skipName: bool, skipHash: bool, absolute: bool) {
    predicate Enabled(c: Check) {
      match c
      case ByName => !skipName
      case ByHash => !skipHash
    }
  }

  /** The state of one scan session. */
  datatype Scanner = Scanner(
    opts: Options,
    duplicateMap: map<Path, Duplicates>,
    errMap: map<Path, Msg>,
    nameMap: map<string, Path>,
    hashMap: map<string, Path>)
  {
    /** The index that check `c` consults: base names or content tokens. */
    function Index(c: Check): map<string, Path> {
      match c
      case ByName => nameMap
      case ByHash => hashMap
    }

    function WithIndex(c: Check, m: map<string, Path>): (s: Scanner)
      ensures s.Index(c) == m && s.Index(c.Other()) == Index(c.Other())
      ensures s.opts == opts && s.duplicateMap == duplicateMap && s.errMap == errMap
    {
      match c
      case ByName => this.(nameMap := m)
      case ByHash => this.(hashMap := m)
    }

    /** The record of `p`, or the empty record a lazy creation would start from. */
    function RecordOf(p: Path): Duplicates {
      if p in duplicateMap then duplicateMap[p] else NoDuplicates
    }
  }

  /** What `filepath.Abs` returns: Go hands back a path even alongside an error. */
  datatype AbsOutcome = AbsOutcome(path: Path, err: Option<Msg>)

  /** One entry the walk hands to the callback. */
  datatype Visit = Visit(path: Path, isDir: bool)

  /** The entries a walk of one root visited, in order, and the error it returned. */
  datatype WalkOutcome = WalkOutcome(visits: seq<Visit>, err: Option<Msg>)

  /** The library and filesystem calls the scanner depends on. */
  datatype Env = Env(
    abs: Path -> AbsOutcome,
    toSlash: Path -> Path,
    base: Path -> string,
    hashFile: Path -> Result<string, Msg>,
    walk: Path -> WalkOutcome)

  /** The result of `ScanDir`: the updated session and the walk's error. */
  datatype ScanResult = ScanResult(scanner: Scanner, err: Option<Msg>)

  // ---------------------------------------------------------------------------
  // Reference definitions: what a visit contributes, independent of the step.
  // ---------------------------------------------------------------------------

  /** The path a visit is indexed and reported under. */
  function NormalizedPath(env: Env, opts: Options, raw: Path): Path {
    env.toSlash(if opts.absolute then env.abs(raw).path else raw)
  }

  /** The key check `c` would file path `p` under, if it can compute one. */
  function KeyOfPath(env: Env, c: Check, p: Path): Option<string> {
    match c
    case ByName => Some(env.base(p))
    case ByHash =>
      match env.hashFile(p)
      case Success(h) => Some(h)
      case Failure(_) => None
  }

  /** The key visit `v` is classified under by check `c`, or None if it is not classified. */
  function KeyOf(env: Env, opts: Options, v: Visit, c: Check): Option<string> {
    if v.isDir || !opts.Enabled(c) then None
    else KeyOfPath(env, c, NormalizedPath(env, opts, v.path))
  }

  function AsSet(k: Option<string>): set<string> {
    match k
    case None => {}
    case Some(x) => {x}
  }

  /** Every key the visits are classified under by check `c`. */
  function KeysOf(env: Env, opts: Options, vs: seq<Visit>, c: Check): set<string>
    decreases |vs|
  {
    if vs == [] then {} else AsSet(KeyOf(env, opts, vs[0], c)) + KeysOf(env, opts, vs[1..], c)
  }

  /** The raw path of `v` if visiting it fails, either resolving it or hashing it. */
  function VisitErrors(env: Env, opts: Options, v: Visit): set<Path> {
    if !v.isDir
       && ((opts.absolute && env.abs(v.path).err.Some?)
           || (!opts.skipHash && env.hashFile(NormalizedPath(env, opts, v.path)).Failure?))
    then {v.path}
    else {}
  }

  function ErrorsOf(env: Env, opts: Options, vs: seq<Visit>): set<Path>
    decreases |vs|
  {
    if vs == [] then {} else VisitErrors(env, opts, vs[0]) + ErrorsOf(env, opts, vs[1..])
  }

  /** The visits of all roots, walked one after the other. */
  function AllVisits(env: Env, roots: seq<Path>): seq<Visit>
    decreases |roots|
  {
    if roots == [] then [] else env.walk(roots[0]).visits + AllVisits(env, roots[1..])
  }

  /** The roots whose walk returned an error. */
  function RootErrors(env: Env, roots: seq<Path>): set<Path>
    decreases |roots|
  {
    (if roots != [] && env.walk(roots[0]).err.Some? then {roots[0]} else {})
    + (if roots == [] then {} else RootErrors(env, roots[1..]))
  }

  // ---------------------------------------------------------------------------
  // Session growth: indexes are write-once, records append-only.
  // ---------------------------------------------------------------------------

  ghost predicate WriteOnce(m: map<string, Path>, m': map<string, Path>) {
    forall k :: k in m ==> k in m' && m'[k] == m[k]
  }

  ghost predicate AppendOnly(m: map<Path, Duplicates>, m': map<Path, Duplicates>) {
    forall p :: p in m ==>
      && p in m'
      && m[p].nameDuplicates <= m'[p].nameDuplicates
      && m[p].hashDuplicates <= m'[p].hashDuplicates
  }

  /** `r` is a later state of the session `s`: nothing recorded in `s` was lost or rewritten. */
  ghost predicate Grows(s: Scanner, r: Scanner) {
    && r.opts == s.opts
    && WriteOnce(s.nameMap, r.nameMap)
    && WriteOnce(s.hashMap, r.hashMap)
    && AppendOnly(s.duplicateMap, r.duplicateMap)
    && s.errMap.Keys <= r.errMap.Keys
  }

  lemma GrowsTransitive(s: Scanner, t: Scanner, u: Scanner)
    requires Grows(s, t) && Grows(t, u)
    ensures Grows(s, u)
  {
    forall p | p in s.duplicateMap
      ensures s.duplicateMap[p].nameDuplicates <= u.duplicateMap[p].nameDuplicates
      ensures s.duplicateMap[p].hashDuplicates <= u.duplicateMap[p].hashDuplicates
    {
      PrefixTransitive(s.duplicateMap[p].nameDuplicates, t.duplicateMap[p].nameDuplicates, u.duplicateMap[p].nameDuplicates);
      PrefixTransitive(s.duplicateMap[p].hashDuplicates, t.duplicateMap[p].hashDuplicates, u.duplicateMap[p].hashDuplicates);
    }
  }

  lemma PrefixTransitive(a: seq<Path>, b: seq<Path>, c: seq<Path>)
    requires a <= b && b <= c
    ensures a <= c
  {
    assert a == b[..|a|];
    assert b == c[..|b|];
  }

  // ---------------------------------------------------------------------------
  // Operations.
  // ---------------------------------------------------------------------------

  /** A new session with the given options and nothing recorded. */
  function NewScanner(skipName: bool, skipHash: bool, absolute: bool): (s: Scanner)
    ensures s.opts == Options(skipName, skipHash, absolute)
    ensures !HasErrors(s) && !FoundDuplicates(s)
    ensures s.Index(ByName) == map[] && s.Index(ByHash) == map[]
  {
    Scanner(Options(skipName, skipHash, absolute), map[], map[], map[], map[])
  }

  /**
    Appends `duplPath` to the sequence check `c` keeps for `path`, creating the
    record first if `path` has none.
  */
  function AddDuplicate(s: Scanner, c: Check, path: Path, duplPath: Path): (r: Scanner)
    ensures r.duplicateMap.Keys == s.duplicateMap.Keys + {path}
    ensures r.duplicateMap[path].Of(c) == s.RecordOf(path).Of(c) + [duplPath]
    ensures r.duplicateMap[path].Of(c.Other()) == s.RecordOf(path).Of(c.Other())
    ensures r.duplicateMap == s.duplicateMap[path := r.duplicateMap[path]]
    ensures r.opts == s.opts && r.errMap == s.errMap && r.nameMap == s.nameMap && r.hashMap == s.hashMap
  {
    var d := s.RecordOf(path);
    s.(duplicateMap := s.duplicateMap[path := d.Append(c, duplPath)])
  }

  /**
    Looks `key` up in the index of check `c`: a repeat is attached to the path
    that first carried the key, an unseen key is bound to `wpath`.
  */
  function Classify(s: Scanner, c: Check, key: string, wpath: Path): (r: Scanner)
    ensures key !in s.Index(c) ==> r.Index(c) == s.Index(c)[key := wpath] && r.duplicateMap == s.duplicateMap
    ensures key in s.Index(c) ==>
      var first := s.Index(c)[key];
      && r.Index(c) == s.Index(c)
      && r.duplicateMap.Keys == s.duplicateMap.Keys + {first}
      && r.duplicateMap[first].Of(c) == s.RecordOf(first).Of(c) + [wpath]
      && r.duplicateMap[first].Of(c.Other()) == s.RecordOf(first).Of(c.Other())
      && r.duplicateMap == s.duplicateMap[first := r.duplicateMap[first]]
    ensures r.Index(c.Other()) == s.Index(c.Other()) && r.opts == s.opts && r.errMap == s.errMap
  {
    if key in s.Index(c) then AddDuplicate(s, c, s.Index(c)[key], wpath)
    else s.WithIndex(c, s.Index(c)[key := wpath])
  }

  /** Records `msg` under `path`; a later error for the same path replaces an earlier one. */
  function RecordError(s: Scanner, path: Path, msg: Msg): (r: Scanner)
    ensures r.errMap.Keys == s.errMap.Keys + {path} && r.errMap[path] == msg
    ensures forall q :: q in s.errMap && q != path ==> r.errMap[q] == s.errMap[q]
    ensures r.(errMap := s.errMap) == s
  {
    s.(errMap := s.errMap[path := msg])
  }

  /** Resolving a path to absolute form (lines 60-68): a failure is recorded under the raw path and the walk goes on. */
  function RecordAbsError(env: Env, s: Scanner, raw: Path): (r: Scanner)
    ensures r.errMap.Keys == s.errMap.Keys + (if s.opts.absolute && env.abs(raw).err.Some? then {raw} else {})
    ensures s.opts.absolute && env.abs(raw).err.Some? ==> r.errMap[raw] == env.abs(raw).err.value
    ensures !(s.opts.absolute && env.abs(raw).err.Some?) ==> r == s
    ensures forall q :: q in s.errMap && q != raw ==> r.errMap[q] == s.errMap[q]
    ensures r.(errMap := s.errMap) == s
  {
    var resolved := env.abs(raw);
    if s.opts.absolute && resolved.err.Some? then RecordError(s, raw, resolved.err.value) else s
  }

  /** The name check of one file (lines 74-81), skipped when the scanner skips names. */
  function CheckName(env: Env, s: Scanner, wpath: Path): (r: Scanner)
    ensures r.opts == s.opts
    ensures r.nameMap.Keys == s.nameMap.Keys + (if s.opts.skipName then {} else {env.base(wpath)})
    ensures r.hashMap == s.hashMap && r.errMap == s.errMap
  {
    if s.opts.skipName then s else Classify(s, ByName, env.base(wpath), wpath)
  }

  /**
    The content check of one file (lines 84-95), skipped when the scanner skips
    hashes. A hashing failure is recorded under the raw path `raw` and leaves
    the content index and the records untouched.
  */
  function CheckHash(env: Env, s: Scanner, raw: Path, wpath: Path): (r: Scanner)
    ensures r.opts == s.opts
    ensures r.hashMap.Keys == s.hashMap.Keys + (if s.opts.skipHash then {} else AsSet(KeyOfPath(env, ByHash, wpath)))
    ensures r.errMap.Keys == s.errMap.Keys + (if !s.opts.skipHash && env.hashFile(wpath).Failure? then {raw} else {})
    ensures r.errMap == if !s.opts.skipHash && env.hashFile(wpath).Failure? then s.errMap[raw := env.hashFile(wpath).error] else s.errMap
    ensures r.nameMap == s.nameMap
  {
    if s.opts.skipHash then s
    else
      match env.hashFile(wpath)
      case Failure(e) => RecordError(s, raw, e)
      case Success(h) => Classify(s, ByHash, h, wpath)
  }

  /**
    The walk callback for one visited entry: directories are skipped, a file is
    classified by name and then by content; failures are recorded under the
    raw path and never stop the walk.
  */
  function VisitFile(env: Env, s: Scanner, v: Visit): (r: Scanner)
    ensures r.opts == s.opts
    ensures r.errMap.Keys == s.errMap.Keys + VisitErrors(env, s.opts, v)
    ensures r.nameMap.Keys == s.nameMap.Keys + AsSet(KeyOf(env, s.opts, v, ByName))
    ensures r.hashMap.Keys == s.hashMap.Keys + AsSet(KeyOf(env, s.opts, v, ByHash))
  {
    if v.isDir then s
    else
      var wpath := NormalizedPath(env, s.opts, v.path);
      var s1 := RecordAbsError(env, s, v.path);
      var s2 := CheckName(env, s1, wpath);
      CheckHash(env, s2, v.path, wpath)
  }

  /** The callback applied to every visit of a walk, in order. */
  function FoldVisits(env: Env, s: Scanner, vs: seq<Visit>): (r: Scanner)
    ensures r.opts == s.opts
    decreases |vs|
  {
    if vs == [] then s else FoldVisits(env, VisitFile(env, s, vs[0]), vs[1..])
  }

  /** Growth by `x` and then by `y` is growth by their union. */
  lemma UnionStep<T>(a: set<T>, a1: set<T>, r: set<T>, x: set<T>, y: set<T>, xy: set<T>)
    requires a1 == a + x && r == a1 + y && xy == x + y
    ensures r == a + xy
  {
  }

  /** Growth by two parts, twice, is growth by the two unions. */
  lemma UnionStep2<T>(a: set<T>, a1: set<T>, r: set<T>, x1: set<T>, y1: set<T>, x2: set<T>, y2: set<T>, x: set<T>, y: set<T>)
    requires a1 == a + x1 + y1 && r == a1 + x2 + y2 && x == x1 + x2 && y == y1 + y2
    ensures r == a + x + y
  {
  }

  /** A walk indexes exactly the keys of its visits. */
  lemma {:induction false} FoldVisitsIndexKeys(env: Env, s: Scanner, vs: seq<Visit>, c: Check)
    ensures FoldVisits(env, s, vs).Index(c).Keys == s.Index(c).Keys + KeysOf(env, s.opts, vs, c)
    decreases |vs|
  {
    if vs != [] {
      var s1 := VisitFile(env, s, vs[0]);
      var r := FoldVisits(env, s1, vs[1..]);
      assert s1.Index(c).Keys == s.Index(c).Keys + AsSet(KeyOf(env, s.opts, vs[0], c)) by {
        match c
        case ByName =>
        case ByHash =>
      }
      FoldVisitsIndexKeys(env, s1, vs[1..], c);
      UnionStep(s.Index(c).Keys, s1.Index(c).Keys, r.Index(c).Keys,
        AsSet(KeyOf(env, s.opts, vs[0], c)), KeysOf(env, s.opts, vs[1..], c), KeysOf(env, s.opts, vs, c));
    }
  }

  /** A walk records an error for exactly its failed visits. */
  lemma {:induction false} FoldVisitsErrorKeys(env: Env, s: Scanner, vs: seq<Visit>)
    ensures FoldVisits(env, s, vs).errMap.Keys == s.errMap.Keys + ErrorsOf(env, s.opts, vs)
    decreases |vs|
  {
    if vs != [] {
      var s1 := VisitFile(env, s, vs[0]);
      var r := FoldVisits(env, s1, vs[1..]);
      FoldVisitsErrorKeys(env, s1, vs[1..]);
      UnionStep(s.errMap.Keys, s1.errMap.Keys, r.errMap.Keys,
        VisitErrors(env, s.opts, vs[0]), ErrorsOf(env, s.opts, vs[1..]), ErrorsOf(env, s.opts, vs));
    }
  }

  /** Walks one root; the walk's own error is handed back to the caller. */
  function ScanDir(env: Env, s: Scanner, root: Path): (r: ScanResult)
    ensures r.scanner.opts == s.opts
    ensures r.err == env.walk(root).err
    ensures r.scanner.errMap.Keys == s.errMap.Keys + ErrorsOf(env, s.opts, env.walk(root).visits)
    ensures r.scanner.nameMap.Keys == s.nameMap.Keys + KeysOf(env, s.opts, env.walk(root).visits, ByName)
    ensures r.scanner.hashMap.Keys == s.hashMap.Keys + KeysOf(env, s.opts, env.walk(root).visits, ByHash)
  {
    var w := env.walk(root);
    FoldVisitsErrorKeys(env, s, w.visits);
    FoldVisitsIndexKeys(env, s, w.visits, ByName);
    FoldVisitsIndexKeys(env, s, w.visits, ByHash);
    ScanResult(FoldVisits(env, s, w.visits), w.err)
  }

  /** One iteration of `ScanDirs`: walk `root`, then store its error, if any, under `root`. */
  function ScanRoot(env: Env, s: Scanner, root: Path): (r: Scanner)
    ensures var walked := FoldVisits(env, s, env.walk(root).visits);
      && r.(errMap := walked.errMap) == walked
      && r.errMap.Keys == walked.errMap.Keys + (if env.walk(root).err.Some? then {root} else {})
      && (env.walk(root).err.Some? ==> r.errMap[root] == env.walk(root).err.value)
      && (forall q :: q in walked.errMap && q != root ==> r.errMap[q] == walked.errMap[q])
  {
    var res := ScanDir(env, s, root);
    assert res == ScanResult(FoldVisits(env, s, env.walk(root).visits), env.walk(root).err);
    if res.err.Some? then RecordError(res.scanner, root, res.err.value) else res.scanner
  }

  /** Scans every root in order with one shared session; a root's walk error is stored under the root. */
  function ScanDirs(env: Env, s: Scanner, roots: seq<Path>): (r: Scanner)
    ensures r.opts == s.opts
    decreases |roots|
  {
    if roots == [] then s else ScanDirs(env, ScanRoot(env, s, roots[0]), roots[1..])
  }

  /** A multi-root scan indexes exactly the keys of every visit of every root. */
  lemma {:induction false} ScanDirsIndexKeys(env: Env, s: Scanner, roots: seq<Path>, c: Check)
    ensures ScanDirs(env, s, roots).Index(c).Keys == s.Index(c).Keys + KeysOf(env, s.opts, AllVisits(env, roots), c)
    decreases |roots|
  {
    if roots != [] {
      var s1 := ScanRoot(env, s, roots[0]);
      var first := env.walk(roots[0]).visits;
      var rest := AllVisits(env, roots[1..]);
      var r := ScanDirs(env, s1, roots[1..]);
      assert s1.Index(c) == FoldVisits(env, s, first).Index(c);
      FoldVisitsIndexKeys(env, s, first, c);
      ScanDirsIndexKeys(env, s1, roots[1..], c);
      KeysOfAppend(env, s.opts, first, rest, c);
      UnionStep(s.Index(c).Keys, s1.Index(c).Keys, r.Index(c).Keys,
        KeysOf(env, s.opts, first, c), KeysOf(env, s.opts, rest, c), KeysOf(env, s.opts, AllVisits(env, roots), c));
    }
  }

  /** A multi-root scan records an error for exactly the failed visits and the roots whose walk failed. */
  lemma {:induction false} ScanDirsErrorKeys(env: Env, s: Scanner, roots: seq<Path>)
    ensures ScanDirs(env, s, roots).errMap.Keys
            == s.errMap.Keys + ErrorsOf(env, s.opts, AllVisits(env, roots)) + RootErrors(env, roots)
    decreases |roots|
  {
    if roots != [] {
      var s1 := ScanRoot(env, s, roots[0]);
      var r := ScanDirs(env, s1, roots[1..]);
      var first := env.walk(roots[0]).visits;
      var rest := AllVisits(env, roots[1..]);
      var failed := if env.walk(roots[0]).err.Some? then {roots[0]} else {};
      assert s1.errMap.Keys == s.errMap.Keys + ErrorsOf(env, s.opts, first) + failed;
      ScanDirsErrorKeys(env, s1, roots[1..]);
      ErrorsOfAppend(env, s.opts, first, rest);
      UnionStep2(s.errMap.Keys, s1.errMap.Keys, r.errMap.Keys,
        ErrorsOf(env, s.opts, first), failed, ErrorsOf(env, s.opts, rest), RootErrors(env, roots[1..]),
        ErrorsOf(env, s.opts, AllVisits(env, roots)), RootErrors(env, roots));
    }
  }

  /** Classification under one check rebinds no index entry and only appends to records. */
  lemma ClassifyGrows(s: Scanner, c: Check, key: string, wpath: Path)
    ensures Grows(s, Classify(s, c, key, wpath))
  {
    var r := Classify(s, c, key, wpath);
    assert WriteOnce(s.Index(c.Other()), r.Index(c.Other()));
    match c
    case ByName =>
    case ByHash =>
  }

  /** The walk callback keeps every index entry, record prefix and error path of the session. */
  lemma VisitFileGrows(env: Env, s: Scanner, v: Visit)
    ensures Grows(s, VisitFile(env, s, v))
  {
    if !v.isDir {
      var wpath := NormalizedPath(env, s.opts, v.path);
      var s1 := RecordAbsError(env, s, v.path);
      var s2 := CheckName(env, s1, wpath);
      var r := CheckHash(env, s2, v.path, wpath);
      if !s.opts.skipName {
        ClassifyGrows(s1, ByName, env.base(wpath), wpath);
      }
      GrowsTransitive(s, s1, s2);
      if !s.opts.skipHash && env.hashFile(wpath).Success? {
        ClassifyGrows(s2, ByHash, env.hashFile(wpath).value, wpath);
      }
      GrowsTransitive(s, s2, r);
    }
  }

  /** A whole walk keeps every index entry, record prefix and error path of the session. */
  lemma {:induction false} FoldVisitsGrows(env: Env, s: Scanner, vs: seq<Visit>)
    ensures Grows(s, FoldVisits(env, s, vs))
    decreases |vs|
  {
    if vs != [] {
      var s1 := VisitFile(env, s, vs[0]);
      VisitFileGrows(env, s, vs[0]);
      FoldVisitsGrows(env, s1, vs[1..]);
      GrowsTransitive(s, s1, FoldVisits(env, s1, vs[1..]));
    }
  }

  /** Across all roots, no index entry is rewritten and no record loses an entry. */
  lemma {:induction false} ScanDirsGrows(env: Env, s: Scanner, roots: seq<Path>)
    ensures Grows(s, ScanDirs(env, s, roots))
    decreases |roots|
  {
    if roots != [] {
      var res := ScanDir(env, s, roots[0]);
      var s1 := ScanRoot(env, s, roots[0]);
      FoldVisitsGrows(env, s, env.walk(roots[0]).visits);
      GrowsTransitive(s, res.scanner, s1);
      ScanDirsGrows(env, s1, roots[1..]);
      GrowsTransitive(s, s1, ScanDirs(env, s1, roots[1..]));
    }
  }

  lemma {:induction false} KeysOfAppend(env: Env, opts: Options, vs: seq<Visit>, ws: seq<Visit>, c: Check)
    ensures KeysOf(env, opts, vs + ws, c) == KeysOf(env, opts, vs, c) + KeysOf(env, opts, ws, c)
    decreases |vs|
  {
    if vs != [] {
      assert (vs + ws)[1..] == vs[1..] + ws;
      KeysOfAppend(env, opts, vs[1..], ws, c);
    } else {
      assert vs + ws == ws;
    }
  }

  lemma {:induction false} ErrorsOfAppend(env: Env, opts: Options, vs: seq<Visit>, ws: seq<Visit>)
    ensures ErrorsOf(env, opts, vs + ws) == ErrorsOf(env, opts, vs) + ErrorsOf(env, opts, ws)
    decreases |vs|
  {
    if vs != [] {
      assert (vs + ws)[1..] == vs[1..] + ws;
      ErrorsOfAppend(env, opts, vs[1..], ws);
    } else {
      assert vs + ws == ws;
    }
  }

  // ---------------------------------------------------------------------------
  // Queries.
  // ---------------------------------------------------------------------------

  predicate HasErrors(s: Scanner) {
    |s.errMap| > 0
  }

  predicate FoundDuplicates(s: Scanner) {
    |s.duplicateMap| > 0
  }

  /** Every path some record lists, as a name or as a content duplicate. */
  ghost function DuplicatePaths(m: map<Path, Duplicates>): set<Path> {
    PathsOfKeys(m, m.Keys)
  }

  /** The paths the records under `keys` list. */
  ghost function PathsOfKeys(m: map<Path, Duplicates>, keys: set<Path>): set<Path> {
    set k, p | k in keys && k in m && p in m[k].nameDuplicates + m[k].hashDuplicates :: p
  }

  lemma PathsOfKeysAdd(m: map<Path, Duplicates>, keys: set<Path>, k: Path)
    requires k in m
    ensures PathsOfKeys(m, keys + {k})
            == PathsOfKeys(m, keys) + Elements(m[k].nameDuplicates) + Elements(m[k].hashDuplicates)
  {
    var lhs := PathsOfKeys(m, keys + {k});
    var rhs := PathsOfKeys(m, keys) + Elements(m[k].nameDuplicates) + Elements(m[k].hashDuplicates);
    forall p | p in lhs ensures p in rhs {
      var k' :| k' in keys + {k} && k' in m && p in m[k'].nameDuplicates + m[k'].hashDuplicates;
    }
    forall p | p in rhs ensures p in lhs {
      if p !in PathsOfKeys(m, keys) {
        assert p in m[k].nameDuplicates + m[k].hashDuplicates;
      }
    }
  }

  function Elements(ps: seq<Path>): (e: set<Path>)
    ensures forall p :: p in e <==> p in ps
  {
    set p | p in ps
  }

  /**
    The flat list of every reported duplicate, without repetition. Go ranges
    over a map here, so the order is left open: keys are taken in any order.
  */
  method FlatDuplicates(s: Scanner) returns (paths: seq<Path>)
    ensures forall i, j :: 0 <= i < j < |paths| ==> paths[i] != paths[j]
    ensures forall p :: p in paths <==> p in DuplicatePaths(s.duplicateMap)
  {
    var found: set<Path> := {};
    var todo := s.duplicateMap.Keys;
    while todo != {}
      invariant todo <= s.duplicateMap.Keys
      invariant found == PathsOfKeys(s.duplicateMap, s.duplicateMap.Keys - todo)
      decreases todo
    {
      var k :| k in todo;
      var d := s.duplicateMap[k];
      PathsOfKeysAdd(s.duplicateMap, s.duplicateMap.Keys - todo, k);
      found := found + Elements(d.nameDuplicates) + Elements(d.hashDuplicates);
      assert s.duplicateMap.Keys - (todo - {k}) == (s.duplicateMap.Keys - todo) + {k};
      todo := todo - {k};
    }
    paths := [];
    var rest := found;
    while rest != {}
      invariant rest <= found
      invariant forall i, j :: 0 <= i < j < |paths| ==> paths[i] != paths[j]
      invariant forall p :: p in paths <==> p in found && p !in rest
      decreases rest
    {
      var p :| p in rest;
      paths := paths + [p];
      rest := rest - {p};
    }
  }
}
