/**
 * Resolution and build planning for installables (src/libcmd/installables.cc): turning
 * the derived paths that installables expand to into built paths, through one batched
 * call to the build executor, and projecting the results onto store paths.
 *
 * The store, the build executor and the evaluator are oracles: the store is a value of
 * total functions, the executor an object that records the batches it is asked to build,
 * and an installable carries the derived paths the evaluator expands it to.
 */
module Installables {
  import opened Wrappers
  import opened Ordered
  import opened DerivedPaths
  import opened Globals

  /** Per-request metadata that travels with a derived path and is handed back unchanged. */
  datatype ExtraPathInfo = ExtraPathInfo(data: string)

  datatype DerivedPathWithInfo = DerivedPathWithInfo(path: DerivedPath, info: ExtraPathInfo)

  /** An installable: its description `what()` and what `toDerivedPaths()` expands it to. */
  datatype Installable = Installable(what: string, derivedPaths: seq<DerivedPathWithInfo>)

  datatype Realisation = Realisation(outPath: StorePath)

  /** A per-path build result, keyed by the derived path it is for. */
  datatype KeyedBuildResult = KeyedBuildResult(
    path: DerivedPath,
    success: bool,
    errorMsg: string,
    builtOutputs: map<OutputName, Realisation>)

  datatype BuiltPathWithResult = BuiltPathWithResult(
    path: BuiltPath,
    info: ExtraPathInfo,
    result: Option<KeyedBuildResult>)

  datatype Realise = Nothing | Derivation | Outputs

  datatype OperateOn = Output | Derivation

  /** Forwarded to the executor, never interpreted here. */
  datatype BuildMode = Normal | Repair | Check

  datatype Error =
    | UsageError(msg: string)
    /** BuildResult::rethrow: the failed result's own error message. */
    | BuildError(msg: string)
    /** "build of %s failed", over the failed paths in std::set order. */
    | BuildsFailed(failedPaths: seq<string>)
    | NotOneDerivation(what: string, count: nat)
    | NoKnownDeriver(what: string)
    | NotADerivation(what: string)
    | NotOneStorePath(what: string)

  /** The store services the core consults (the store and the evaluation store are one here). */
  datatype Store = Store(
    /** resolveDerivedPath(store, SingleDerivedPath): the store path a single derived path denotes. */
    resolveSingle: SingleDerivedPath -> StorePath,
    /** resolveDerivedPath(store, DerivedPath::Built): the output map of a built derived path. */
    resolveOutputs: (SingleDerivedPath, OutputsSpec) -> map<OutputName, StorePath>,
    /** queryPartialDerivationOutputMap, one output at a time: the path of an output of a
        derivation, as resolveDerivedPath looks it up. */
    outputOf: (StorePath, OutputName) -> StorePath,
    /** queryValidDerivers: the derivations on record as producing a path. */
    queryValidDerivers: StorePath -> set<StorePath>,
    /** DerivedPath::to_string(store) */
    showPath: DerivedPath -> string)

  datatype BuildCall = BuildCall(paths: seq<DerivedPath>, mode: BuildMode)

  /** The build executor: `buildPathsWithResults`, with a record of every call made to it. */
  class Executor {
    const build: (seq<DerivedPath>, BuildMode) -> seq<KeyedBuildResult>
    var calls: seq<BuildCall>

    constructor (build: (seq<DerivedPath>, BuildMode) -> seq<KeyedBuildResult>)
      ensures this.build == build && calls == []
    {
      this.build := build;
      calls := [];
    }

    method BuildPathsWithResults(paths: seq<DerivedPath>, mode: BuildMode)
      returns (results: seq<KeyedBuildResult>)
      modifies this
      ensures results == build(paths, mode)
      ensures calls == old(calls) + [BuildCall(paths, mode)]
    {
      results := build(paths, mode);
      calls := calls + [BuildCall(paths, mode)];
    }
  }

  // ---------------------------------------------------------------------------------
  // Error messages

  function DigitString(n: nat): string
    decreases n
  {
    (if n < 10 then "" else DigitString(n / 10)) + [['0', '1', '2', '3', '4', '5', '6', '7', '8', '9'][n % 10]]
  }

  /** quoteStrings: each string in single quotes. */
  function QuoteStrings(ss: seq<string>): (r: seq<string>)
    ensures |r| == |ss|
    ensures forall k :: 0 <= k < |ss| ==> r[k] == "'" + ss[k] + "'"
  {
    seq(|ss|, k requires 0 <= k < |ss| => "'" + ss[k] + "'")
  }

  /** concatStringsSep */
  function Join(sep: string, ss: seq<string>): string
  {
    if ss == [] then "" else if |ss| == 1 then ss[0] else ss[0] + sep + Join(sep, ss[1..])
  }

  /** The text each error is thrown with. */
  function Describe(e: Error): string
  {
    match e
    case UsageError(msg) => msg
    case BuildError(msg) => msg
    case BuildsFailed(paths) => "build of " + Join(", ", QuoteStrings(paths)) + " failed"
    case NotOneDerivation(what, count) =>
      "installable '" + what + "' evaluates to " + DigitString(count) + " derivations, where only one is expected"
    case NoKnownDeriver(what) => "'" + what + "' does not have a known deriver"
    case NotADerivation(what) => "argument '" + what + "' did not evaluate to a derivation"
    case NotOneStorePath(what) => "argument '" + what + "' should evaluate to one store path"
  }

  // ---------------------------------------------------------------------------------
  // getBuiltPath

  /** The reference handed to the store at one level: the inner level's result, as a constant path. */
  function Truncated(drvPath: SingleBuiltPath, output: OutputName): SingleDerivedPath
  {
    SBuilt(SOpaque(OutPath(drvPath)), output)
  }

  /** Every Built level holds what the store resolves for the truncated reference below it. */
  predicate ResolvedIn(store: Store, r: SingleBuiltPath)
  {
    match r
    case SBOpaque(_) => true
    case SBBuilt(drvPath, output) =>
      && output.1 == store.resolveSingle(Truncated(drvPath, output.0))
      && ResolvedIn(store, drvPath)
  }

  /** getBuiltPath: resolve a single derived path bottom-up, one level per recursive call. */
  function GetBuiltPath(store: Store, b: SingleDerivedPath): (r: SingleBuiltPath)
    ensures Discard(r) == b
    ensures ResolvedIn(store, r)
  {
    match b
    case SOpaque(path) => SBOpaque(path)
    case SBuilt(drvPath, output) =>
      var inner := GetBuiltPath(store, drvPath);
      SBBuilt(inner, (output, store.resolveSingle(Truncated(inner, output))))
  }

  /** The two properties of getBuiltPath's result determine it. */
  lemma {:induction false} GetBuiltPathUnique(store: Store, b: SingleDerivedPath, r: SingleBuiltPath)
    requires Discard(r) == b && ResolvedIn(store, r)
    ensures r == GetBuiltPath(store, b)
  {
    match r
    case SBOpaque(_) =>
    case SBBuilt(drvPath, _) =>
      GetBuiltPathUnique(store, Discard(drvPath), drvPath);
  }

  /** Resolution keeps the chain's depth and its output names. */
  lemma GetBuiltPathShape(store: Store, b: SingleDerivedPath)
    ensures Depth(Discard(GetBuiltPath(store, b))) == Depth(b)
    ensures OutputChain(Discard(GetBuiltPath(store, b))) == OutputChain(b)
  {
  }

  /** What resolveDerivedPath does, and what the oracles are taken to do wherever a lemma
      requires it: an opaque path resolves to itself; an output of a derivation given by a
      derived path is that output of the store path the derived path resolves to; and a
      request for named outputs resolves to exactly those outputs. */
  ghost predicate StoreOk(store: Store)
  {
    && (forall p :: store.resolveSingle(SOpaque(p)) == p)
    && (forall d, o :: store.resolveSingle(SBuilt(d, o)) == store.outputOf(store.resolveSingle(d), o))
    && (forall d, names :: store.resolveOutputs(d, Names(names)).Keys == names)
    && (forall d, names, o :: o in names ==>
          store.resolveOutputs(d, Names(names))[o] == store.outputOf(store.resolveSingle(d), o))
  }

  /** Resolving level by level through the truncated references, as getBuiltPath does,
      ends at the store path resolveDerivedPath gives for the whole reference. */
  lemma {:induction false} GetBuiltPathResolves(store: Store, b: SingleDerivedPath)
    requires StoreOk(store)
    ensures OutPath(GetBuiltPath(store, b)) == store.resolveSingle(b)
  {
    match b
    case SOpaque(_) =>
    case SBuilt(drvPath, output) =>
      var inner := GetBuiltPath(store, drvPath);
      GetBuiltPathResolves(store, drvPath);
      assert store.resolveSingle(SOpaque(OutPath(inner))) == OutPath(inner);
  }

  // ---------------------------------------------------------------------------------
  // The batch and the backmap of build2

  datatype Aux = Aux(info: ExtraPathInfo, installable: Installable)

  /** One derived path requested by one installable. */
  datatype Entry = Entry(path: DerivedPath, aux: Aux)

  function EntriesOf(i: Installable): (es: seq<Entry>)
    ensures |es| == |i.derivedPaths|
    ensures forall k :: 0 <= k < |es| ==>
      es[k] == Entry(i.derivedPaths[k].path, Aux(i.derivedPaths[k].info, i))
  {
    seq(|i.derivedPaths|, k requires 0 <= k < |i.derivedPaths| =>
      Entry(i.derivedPaths[k].path, Aux(i.derivedPaths[k].info, i)))
  }

  /** Every installable's derived paths, in installable order and then expansion order. */
  function Entries(insts: seq<Installable>): seq<Entry>
  {
    if insts == [] then [] else Entries(insts[..|insts| - 1]) + EntriesOf(insts[|insts| - 1])
  }

  function Paths(es: seq<Entry>): (ps: seq<DerivedPath>)
    ensures |ps| == |es|
    ensures forall k :: 0 <= k < |es| ==> ps[k] == es[k].path
  {
    seq(|es|, k requires 0 <= k < |es| => es[k].path)
  }

  /** `pathsToBuild` */
  function Batch(insts: seq<Installable>): seq<DerivedPath>
  {
    Paths(Entries(insts))
  }

  /** The requests for `p`, in order, one per occurrence. */
  function Occurrences(es: seq<Entry>, p: DerivedPath): seq<Aux>
  {
    if es == [] then []
    else Occurrences(es[..|es| - 1], p) + (if es[|es| - 1].path == p then [es[|es| - 1].aux] else [])
  }

  /** `backmap`: each requested path to its requests. */
  function BackmapOf(es: seq<Entry>): map<DerivedPath, seq<Aux>>
  {
    map p | p in Paths(es) :: Occurrences(es, p)
  }

  /** `backmap[p]` (operator[] yields an empty vector for a key not present). */
  function Lookup(backmap: map<DerivedPath, seq<Aux>>, p: DerivedPath): seq<Aux>
  {
    if p in backmap then backmap[p] else []
  }

  lemma {:induction false} OccurrencesAbsent(es: seq<Entry>, p: DerivedPath)
    requires p !in Paths(es)
    ensures Occurrences(es, p) == []
  {
    if es != [] {
      assert Paths(es[..|es| - 1]) == Paths(es)[..|es| - 1];
      OccurrencesAbsent(es[..|es| - 1], p);
    }
  }

  lemma LookupBackmap(es: seq<Entry>, p: DerivedPath)
    ensures Lookup(BackmapOf(es), p) == Occurrences(es, p)
  {
    if p !in Paths(es) {
      OccurrencesAbsent(es, p);
    }
  }

  /** Appending one request to `backmap[p]` keeps the backmap of the longer list. */
  lemma PathsSnoc(es: seq<Entry>, e: Entry)
    ensures Paths(es + [e]) == Paths(es) + [e.path]
  {
  }

  lemma OccurrencesSnoc(es: seq<Entry>, e: Entry, p: DerivedPath)
    ensures Occurrences(es + [e], p) == Occurrences(es, p) + (if e.path == p then [e.aux] else [])
  {
    assert (es + [e])[..|es|] == es;
  }

  lemma BackmapSnoc(es: seq<Entry>, e: Entry)
    ensures BackmapOf(es + [e]) == BackmapOf(es)[e.path := Lookup(BackmapOf(es), e.path) + [e.aux]]
  {
    var lhs := BackmapOf(es + [e]);
    var rhs := BackmapOf(es)[e.path := Lookup(BackmapOf(es), e.path) + [e.aux]];
    PathsSnoc(es, e);
    assert lhs.Keys == rhs.Keys;
    forall p | p in lhs.Keys
      ensures lhs[p] == rhs[p]
    {
      OccurrencesSnoc(es, e, p);
      LookupBackmap(es, p);
    }
  }

  lemma {:induction false} EntriesAppend(a: seq<Installable>, b: seq<Installable>)
    ensures Entries(a + b) == Entries(a) + Entries(b)
    decreases |b|
  {
    if b == [] {
      assert a + b == a;
    } else {
      var b' := b[..|b| - 1];
      assert (a + b)[..|a + b| - 1] == a + b';
      assert (a + b)[|a + b| - 1] == b[|b| - 1];
      EntriesAppend(a, b');
    }
  }

  /** `pathsToBuild` lists the j-th derived path of the k-th installable right after
      everything the installables before it asked for. */
  lemma EntriesSingle(i: Installable)
    ensures Entries([i]) == EntriesOf(i)
  {
    assert [i][..0] == [];
  }

  lemma EntriesPrefix(insts: seq<Installable>, i: nat)
    requires i < |insts|
    ensures Entries(insts[..i + 1]) == Entries(insts[..i]) + EntriesOf(insts[i])
  {
    assert insts[..i + 1][..i] == insts[..i];
  }

  lemma EntriesOfPrefix(inst: Installable, j: nat)
    requires j < |inst.derivedPaths|
    ensures EntriesOf(inst)[..j + 1] ==
            EntriesOf(inst)[..j] + [Entry(inst.derivedPaths[j].path, Aux(inst.derivedPaths[j].info, inst))]
  {
  }

  lemma {:induction false} EntriesSplit(insts: seq<Installable>, k: nat)
    requires k < |insts|
    ensures Entries(insts) == Entries(insts[..k]) + EntriesOf(insts[k]) + Entries(insts[k + 1..])
  {
    var a, c := insts[..k], insts[k + 1..];
    assert insts == (a + [insts[k]]) + c;
    EntriesAppend(a + [insts[k]], c);
    EntriesAppend(a, [insts[k]]);
    EntriesSingle(insts[k]);
  }

  lemma {:induction false} BatchAt(insts: seq<Installable>, k: nat, j: nat)
    requires k < |insts| && j < |insts[k].derivedPaths|
    ensures |Batch(insts[..k])| + j < |Batch(insts)|
    ensures Batch(insts)[|Batch(insts[..k])| + j] == insts[k].derivedPaths[j].path
  {
    EntriesSplit(insts, k);
    var ea, eb := Entries(insts[..k]), EntriesOf(insts[k]);
    assert Entries(insts)[|ea| + j] == eb[j];
  }

  /** The batch keeps installable order and keeps duplicates. */
  lemma BatchAppend(a: seq<Installable>, b: seq<Installable>)
    ensures Batch(a + b) == Batch(a) + Batch(b)
  {
    EntriesAppend(a, b);
  }

  /** `backmap[p]` holds one request per occurrence of `p` in the batch. */
  lemma {:induction false} BackmapCount(es: seq<Entry>, p: DerivedPath)
    ensures |Lookup(BackmapOf(es), p)| == multiset(Paths(es))[p]
  {
    LookupBackmap(es, p);
    if es != [] {
      var es' := es[..|es| - 1];
      assert Paths(es) == Paths(es') + [es[|es| - 1].path];
      BackmapCount(es', p);
      LookupBackmap(es', p);
    }
  }

  /** The requests in `backmap[p]` are exactly the entries for `p`, in batch order. */
  lemma {:induction false} OccurrencesAt(es: seq<Entry>, p: DerivedPath, a: Aux)
    ensures a in Lookup(BackmapOf(es), p) <==> Entry(p, a) in es
  {
    LookupBackmap(es, p);
    if es != [] {
      var es' := es[..|es| - 1];
      assert es == es' + [es[|es| - 1]];
      OccurrencesAt(es', p, a);
      LookupBackmap(es', p);
    }
  }

  // ---------------------------------------------------------------------------------
  // Results of build2

  /** The result for one request when nothing is built (Realise::Nothing / Derivation). */
  function StaticResult(store: Store, p: DerivedPath, a: Aux): (Installable, BuiltPathWithResult)
  {
    match p
    case Built(drvPath, outputs) =>
      (a.installable, BuiltPathWithResult(
        BBuilt(GetBuiltPath(store, drvPath), store.resolveOutputs(drvPath, outputs)), a.info, None))
    case Opaque(path) =>
      (a.installable, BuiltPathWithResult(BOpaque(path), a.info, None))
  }

  /** Without building, a `drv^outputs` request's result resolves its derivation as
      resolveDerivedPath does; named outputs map to exactly those outputs of it. */
  lemma StaticResultResolved(store: Store, p: DerivedPath, a: Aux)
    requires StoreOk(store) && p.Built?
    ensures StaticResult(store, p, a).1.path.BBuilt?
    ensures OutPath(StaticResult(store, p, a).1.path.drvPath) == store.resolveSingle(p.drvPath)
    ensures p.outputs.Names? ==> StaticResult(store, p, a).1.path.outputs.Keys == p.outputs.names
    ensures p.outputs.Names? ==> forall o :: o in p.outputs.names ==>
              StaticResult(store, p, a).1.path.outputs[o] == store.outputOf(store.resolveSingle(p.drvPath), o)
  {
    GetBuiltPathResolves(store, p.drvPath);
  }

  function StaticResultsFor(store: Store, p: DerivedPath, auxs: seq<Aux>): (r: seq<(Installable, BuiltPathWithResult)>)
    ensures |r| == |auxs|
    ensures forall k :: 0 <= k < |auxs| ==> r[k] == StaticResult(store, p, auxs[k])
  {
    seq(|auxs|, k requires 0 <= k < |auxs| => StaticResult(store, p, auxs[k]))
  }

  lemma StaticResultsForSnoc(store: Store, p: DerivedPath, auxs: seq<Aux>, m: nat)
    requires m < |auxs|
    ensures StaticResultsFor(store, p, auxs[..m + 1]) == StaticResultsFor(store, p, auxs[..m]) + [StaticResult(store, p, auxs[m])]
  {
  }

  /** For every path of the batch, in order, the results for all of `backmap[path]`. */
  function StaticResults(store: Store, paths: seq<DerivedPath>, backmap: map<DerivedPath, seq<Aux>>)
    : seq<(Installable, BuiltPathWithResult)>
  {
    if paths == [] then []
    else
      var last := paths[|paths| - 1];
      StaticResults(store, paths[..|paths| - 1], backmap) + StaticResultsFor(store, last, Lookup(backmap, last))
  }

  /** The output map of a built result: each built output's name to its store path. */
  function OutputsOf(builtOutputs: map<OutputName, Realisation>): (outputs: map<OutputName, StorePath>)
    ensures outputs.Keys == builtOutputs.Keys
    ensures forall n :: n in builtOutputs ==> outputs[n] == builtOutputs[n].outPath
  {
    map n | n in builtOutputs :: builtOutputs[n].outPath
  }

  /** The result for one request once its path is built (Realise::Outputs). */
  function BuiltResult(store: Store, br: KeyedBuildResult, a: Aux): (Installable, BuiltPathWithResult)
  {
    match br.path
    case Built(drvPath, _) =>
      (a.installable, BuiltPathWithResult(
        BBuilt(GetBuiltPath(store, drvPath), OutputsOf(br.builtOutputs)), a.info, Some(br)))
    case Opaque(path) =>
      (a.installable, BuiltPathWithResult(BOpaque(path), a.info, Some(br)))
  }

  function BuiltResultsFor(store: Store, br: KeyedBuildResult, auxs: seq<Aux>): (r: seq<(Installable, BuiltPathWithResult)>)
    ensures |r| == |auxs|
    ensures forall k :: 0 <= k < |auxs| ==> r[k] == BuiltResult(store, br, auxs[k])
  {
    seq(|auxs|, k requires 0 <= k < |auxs| => BuiltResult(store, br, auxs[k]))
  }

  lemma BuiltResultsForSnoc(store: Store, br: KeyedBuildResult, auxs: seq<Aux>, m: nat)
    requires m < |auxs|
    ensures BuiltResultsFor(store, br, auxs[..m + 1]) == BuiltResultsFor(store, br, auxs[..m]) + [BuiltResult(store, br, auxs[m])]
  {
  }

  /** For every build result, in order, the results for all of `backmap[result.path]`. */
  function BuiltResults(store: Store, brs: seq<KeyedBuildResult>, backmap: map<DerivedPath, seq<Aux>>)
    : seq<(Installable, BuiltPathWithResult)>
  {
    if brs == [] then []
    else
      var last := brs[|brs| - 1];
      BuiltResults(store, brs[..|brs| - 1], backmap) + BuiltResultsFor(store, last, Lookup(backmap, last.path))
  }

  /** Without building, every request in the batch gets its result, and nothing else does. */
  lemma {:induction false} StaticResultsFanOut(store: Store, es: seq<Entry>, x: (Installable, BuiltPathWithResult))
    ensures x in StaticResults(store, Paths(es), BackmapOf(es)) <==>
            exists e :: e in es && x == StaticResult(store, e.path, e.aux)
  {
    var ps := Paths(es);
    StaticResultsMember(store, ps, BackmapOf(es), x);
    if x in StaticResults(store, ps, BackmapOf(es)) {
      var k, a :| 0 <= k < |ps| && a in Lookup(BackmapOf(es), ps[k]) && x == StaticResult(store, ps[k], a);
      OccurrencesAt(es, ps[k], a);
    }
    if e :| e in es && x == StaticResult(store, e.path, e.aux) {
      OccurrencesAt(es, e.path, e.aux);
      var k :| 0 <= k < |es| && es[k] == e;
      assert ps[k] == e.path;
    }
  }

  lemma {:induction false} StaticResultsMember(store: Store, ps: seq<DerivedPath>, bm: map<DerivedPath, seq<Aux>>,
                                               x: (Installable, BuiltPathWithResult))
    ensures x in StaticResults(store, ps, bm) <==>
            exists k, a :: 0 <= k < |ps| && a in Lookup(bm, ps[k]) && x == StaticResult(store, ps[k], a)
  {
    if ps != [] {
      var ps' := ps[..|ps| - 1];
      StaticResultsMember(store, ps', bm, x);
      var tail := StaticResultsFor(store, ps[|ps| - 1], Lookup(bm, ps[|ps| - 1]));
      if x in tail {
        var m :| 0 <= m < |tail| && tail[m] == x;
        assert Lookup(bm, ps[|ps| - 1])[m] in Lookup(bm, ps[|ps| - 1]);
      }
      if exists k, a :: 0 <= k < |ps| && a in Lookup(bm, ps[k]) && x == StaticResult(store, ps[k], a) {
        var k, a :| 0 <= k < |ps| && a in Lookup(bm, ps[k]) && x == StaticResult(store, ps[k], a);
        if k < |ps| - 1 {
          assert ps'[k] == ps[k];
        } else {
          var m :| 0 <= m < |Lookup(bm, ps[k])| && Lookup(bm, ps[k])[m] == a;
          assert tail[m] == x;
        }
      }
    }
  }

  /** A path requested twice is visited twice, and each visit serves both requests. */
  lemma DuplicatedRequest(store: Store, p: DerivedPath, a1: Aux, a2: Aux)
    ensures StaticResults(store, [p, p], BackmapOf([Entry(p, a1), Entry(p, a2)])) ==
            [StaticResult(store, p, a1), StaticResult(store, p, a2),
             StaticResult(store, p, a1), StaticResult(store, p, a2)]
  {
    var bm := BackmapOf([Entry(p, a1), Entry(p, a2)]);
    BackmapOfTwo(p, a1, a2);
    var f := StaticResultsFor(store, p, [a1, a2]);
    assert f == [StaticResult(store, p, a1), StaticResult(store, p, a2)];
    assert [p, p][..1] == [p] && [p][..0] == [];
    assert StaticResults(store, [p], bm) == f;
    assert StaticResults(store, [p, p], bm) == f + f;
  }

  lemma BackmapOfTwo(p: DerivedPath, a1: Aux, a2: Aux)
    ensures Lookup(BackmapOf([Entry(p, a1), Entry(p, a2)]), p) == [a1, a2]
  {
    var e1, e2 := Entry(p, a1), Entry(p, a2);
    OccurrencesSnoc([], e1, p);
    OccurrencesSnoc([e1], e2, p);
    assert [e1] + [e2] == [e1, e2];
    LookupBackmap([e1, e2], p);
  }

  /** After building, each result is routed to every request for its path, carrying the raw result. */
  lemma {:induction false} BuiltResultsMember(store: Store, brs: seq<KeyedBuildResult>, bm: map<DerivedPath, seq<Aux>>,
                                              x: (Installable, BuiltPathWithResult))
    ensures x in BuiltResults(store, brs, bm) <==>
            exists k, a :: 0 <= k < |brs| && a in Lookup(bm, brs[k].path) && x == BuiltResult(store, brs[k], a)
  {
    if brs != [] {
      var brs' := brs[..|brs| - 1];
      BuiltResultsMember(store, brs', bm, x);
      var last := brs[|brs| - 1];
      var tail := BuiltResultsFor(store, last, Lookup(bm, last.path));
      if x in tail {
        var m :| 0 <= m < |tail| && tail[m] == x;
        assert Lookup(bm, last.path)[m] in Lookup(bm, last.path);
      }
      if exists k, a :: 0 <= k < |brs| && a in Lookup(bm, brs[k].path) && x == BuiltResult(store, brs[k], a) {
        var k, a :| 0 <= k < |brs| && a in Lookup(bm, brs[k].path) && x == BuiltResult(store, brs[k], a);
        if k < |brs| - 1 {
          assert brs'[k] == brs[k];
        } else {
          var m :| 0 <= m < |Lookup(bm, last.path)| && Lookup(bm, last.path)[m] == a;
          assert tail[m] == x;
        }
      }
    }
  }

  /** What a built result carries: the request's installable and info, the raw build result,
      the same store path for an opaque path, and exactly the built outputs for a built one. */
  lemma BuiltResultContents(store: Store, br: KeyedBuildResult, a: Aux)
    ensures BuiltResult(store, br, a).0 == a.installable
    ensures BuiltResult(store, br, a).1.info == a.info
    ensures BuiltResult(store, br, a).1.result == Some(br)
    ensures br.path.Opaque? ==> BuiltResult(store, br, a).1.path == BOpaque(br.path.path)
    ensures br.path.Built? ==>
      && BuiltResult(store, br, a).1.path.BBuilt?
      && Discard(BuiltResult(store, br, a).1.path.drvPath) == br.path.drvPath
      && BuiltResult(store, br, a).1.path.outputs.Keys == br.builtOutputs.Keys
      && forall n :: n in br.builtOutputs ==>
           BuiltResult(store, br, a).1.path.outputs[n] == br.builtOutputs[n].outPath
  {
  }

  // ---------------------------------------------------------------------------------
  // throwBuildErrors

  /** The failed results, in order. */
  function Failed(brs: seq<KeyedBuildResult>): seq<KeyedBuildResult>
  {
    if brs == [] then []
    else Failed(brs[..|brs| - 1]) + (if brs[|brs| - 1].success then [] else [brs[|brs| - 1]])
  }

  /** The error-level log lines for the failed results that carry a message. */
  function ErrorMessages(failed: seq<KeyedBuildResult>): seq<LogEntry>
  {
    if failed == [] then []
    else
      var last := failed[|failed| - 1];
      ErrorMessages(failed[..|failed| - 1]) + (if last.errorMsg == "" then [] else [Message(LvlError, last.errorMsg)])
  }

  function FailedPathStrings(store: Store, failed: seq<KeyedBuildResult>): set<string>
  {
    set k | 0 <= k < |failed| :: store.showPath(failed[k].path)
  }

  /** What throwBuildErrors throws, if anything. */
  function BuildErrors(store: Store, brs: seq<KeyedBuildResult>): Outcome<Error>
  {
    var failed := Failed(brs);
    if |failed| == 0 then Pass
    else if |failed| == 1 then Fail(BuildError(failed[0].errorMsg))
    else Fail(BuildsFailed(SortedElements(FailedPathStrings(store, failed))))
  }

  /** What throwBuildErrors logs: the messages, only when two or more results failed. */
  function BuildErrorLogs(brs: seq<KeyedBuildResult>): seq<LogEntry>
  {
    if |Failed(brs)| >= 2 then ErrorMessages(Failed(brs)) else []
  }

  method ThrowBuildErrors(store: Store, buildResults: seq<KeyedBuildResult>, logger: Logger)
    returns (outcome: Outcome<Error>)
    modifies logger
    ensures outcome == BuildErrors(store, buildResults)
    ensures logger.entries == old(logger.entries) + BuildErrorLogs(buildResults)
  {
    var failed: seq<KeyedBuildResult> := [];
    for k := 0 to |buildResults|
      invariant failed == Failed(buildResults[..k])
    {
      assert buildResults[..k + 1][..k] == buildResults[..k];
      if !buildResults[k].success {
        failed := failed + [buildResults[k]];
      }
    }
    assert buildResults[..|buildResults|] == buildResults;

    if |failed| == 0 {
      return Pass;
    }
    if |failed| == 1 {
      return Fail(BuildError(failed[0].errorMsg));
    }
    var failedPaths := LogFailures(store, failed, logger);
    return Fail(BuildsFailed(SortedElements(failedPaths)));
  }

  lemma AppendAssoc<T>(a: seq<T>, b: seq<T>, c: seq<T>)
    ensures a + b + c == a + (b + c)
  {
  }

  /** The loop of throwBuildErrors over two or more failures: log each message, collect the paths. */
  method LogFailures(store: Store, failed: seq<KeyedBuildResult>, logger: Logger)
    returns (failedPaths: set<string>)
    modifies logger
    ensures failedPaths == FailedPathStrings(store, failed)
    ensures logger.entries == old(logger.entries) + ErrorMessages(failed)
  {
    failedPaths := {};
    for k := 0 to |failed|
      invariant failedPaths == FailedPathStrings(store, failed[..k])
      invariant logger.entries == old(logger.entries) + ErrorMessages(failed[..k])
    {
      assert failed[..k + 1][..k] == failed[..k];
      var logged := if failed[k].errorMsg == "" then [] else [Message(LvlError, failed[k].errorMsg)];
      if failed[k].errorMsg != "" {
        logger.Log(Message(LvlError, failed[k].errorMsg));
      }
      AppendAssoc(old(logger.entries), ErrorMessages(failed[..k]), logged);
      FailedPathStringsSnoc(store, failed, k);
      failedPaths := failedPaths + {store.showPath(failed[k].path)};
    }
    assert failed[..|failed|] == failed;
  }

  lemma FailedPathStringsSnoc(store: Store, failed: seq<KeyedBuildResult>, k: nat)
    requires k < |failed|
    ensures FailedPathStrings(store, failed[..k + 1])
         == FailedPathStrings(store, failed[..k]) + {store.showPath(failed[k].path)}
  {
    var lhs, rhs := FailedPathStrings(store, failed[..k + 1]), FailedPathStrings(store, failed[..k]);
    assert store.showPath(failed[..k + 1][k].path) in lhs;
    forall s | s in lhs
      ensures s in rhs || s == store.showPath(failed[k].path)
    {
      var j :| 0 <= j < k + 1 && s == store.showPath(failed[..k + 1][j].path);
      if j < k {
        assert failed[..k][j] == failed[..k + 1][j];
      }
    }
    forall s | s in rhs
      ensures s in lhs
    {
      var j :| 0 <= j < k && s == store.showPath(failed[..k][j].path);
      assert failed[..k][j] == failed[..k + 1][j];
    }
  }

  lemma {:induction false} FailedMember(brs: seq<KeyedBuildResult>, x: KeyedBuildResult)
    ensures x in Failed(brs) <==> x in brs && !x.success
  {
    if brs != [] {
      var brs' := brs[..|brs| - 1];
      FailedMember(brs', x);
      assert brs == brs' + [brs[|brs| - 1]];
    }
  }

  lemma {:induction false} FailedEmpty(brs: seq<KeyedBuildResult>)
    ensures Failed(brs) == [] <==> forall k :: 0 <= k < |brs| ==> brs[k].success
  {
    if brs != [] {
      var brs' := brs[..|brs| - 1];
      FailedEmpty(brs');
      assert forall k :: 0 <= k < |brs'| ==> brs'[k] == brs[k];
    }
  }

  lemma {:induction false} FailedSingle(brs: seq<KeyedBuildResult>, k: nat)
    requires k < |brs| && !brs[k].success
    requires forall j :: 0 <= j < |brs| && j != k ==> brs[j].success
    ensures Failed(brs) == [brs[k]]
  {
    var brs' := brs[..|brs| - 1];
    if k == |brs| - 1 {
      FailedEmpty(brs');
    } else {
      FailedSingle(brs', k);
    }
  }

  lemma {:induction false} FailedAtLeastTwo(brs: seq<KeyedBuildResult>, i: nat, j: nat)
    requires i < j < |brs| && !brs[i].success && !brs[j].success
    ensures |Failed(brs)| >= 2
  {
    var brs' := brs[..|brs| - 1];
    if j < |brs| - 1 {
      FailedAtLeastTwo(brs', i, j);
    } else {
      FailedMember(brs', brs[i]);
      assert brs'[i] == brs[i];
    }
  }

  /** No failed result: throwBuildErrors returns normally. */
  lemma BuildErrorsNone(store: Store, brs: seq<KeyedBuildResult>)
    ensures BuildErrors(store, brs) == Pass <==> forall k :: 0 <= k < |brs| ==> brs[k].success
  {
    FailedEmpty(brs);
  }

  /** Exactly one failed result: its own error, unchanged, and nothing logged. */
  lemma BuildErrorsSingle(store: Store, brs: seq<KeyedBuildResult>, k: nat)
    requires k < |brs| && !brs[k].success
    requires forall j :: 0 <= j < |brs| && j != k ==> brs[j].success
    ensures BuildErrors(store, brs) == Fail(BuildError(brs[k].errorMsg))
    ensures BuildErrorLogs(brs) == []
  {
    FailedSingle(brs, k);
  }

  /** Two or more failed results: one summary over the failed paths' strings, sorted and
      without duplicates, after each non-empty message is logged. */
  lemma BuildErrorsMany(store: Store, brs: seq<KeyedBuildResult>, i: nat, j: nat)
    requires i < j < |brs| && !brs[i].success && !brs[j].success
    ensures BuildErrors(store, brs).Fail? && BuildErrors(store, brs).error.BuildsFailed?
    ensures Sorted(BuildErrors(store, brs).error.failedPaths)
    ensures forall s :: s in BuildErrors(store, brs).error.failedPaths <==>
              exists k :: 0 <= k < |brs| && !brs[k].success && s == store.showPath(brs[k].path)
    ensures BuildErrorLogs(brs) == ErrorMessages(Failed(brs))
  {
    FailedAtLeastTwo(brs, i, j);
    SortedElementsSorted(FailedPathStrings(store, Failed(brs)));
    FailedPathStringsExactly(store, brs);
  }

  /** The strings of the failed paths are those of the results that did not succeed. */
  lemma FailedPathStringsExactly(store: Store, brs: seq<KeyedBuildResult>)
    ensures forall s :: s in FailedPathStrings(store, Failed(brs)) <==>
              exists k :: 0 <= k < |brs| && !brs[k].success && s == store.showPath(brs[k].path)
  {
    var failed := Failed(brs);
    forall s
      ensures s in FailedPathStrings(store, failed) <==>
              exists k :: 0 <= k < |brs| && !brs[k].success && s == store.showPath(brs[k].path)
    {
      if s in FailedPathStrings(store, failed) {
        var m :| 0 <= m < |failed| && s == store.showPath(failed[m].path);
        FailedMember(brs, failed[m]);
        var k :| 0 <= k < |brs| && brs[k] == failed[m];
      }
      if exists k :: 0 <= k < |brs| && !brs[k].success && s == store.showPath(brs[k].path) {
        var k :| 0 <= k < |brs| && !brs[k].success && s == store.showPath(brs[k].path);
        FailedMember(brs, brs[k]);
        var m :| 0 <= m < |failed| && failed[m] == brs[k];
      }
    }
  }

  // ---------------------------------------------------------------------------------
  // build2, build

  function ShowAll(store: Store, paths: seq<DerivedPath>): (r: seq<string>)
    ensures |r| == |paths|
    ensures forall k :: 0 <= k < |paths| ==> r[k] == store.showPath(paths[k])
  {
    seq(|paths|, k requires 0 <= k < |paths| => store.showPath(paths[k]))
  }

  /** What build2 returns once the batch is built: the first build error, or the routed results. */
  function OutputsResult(store: Store, brs: seq<KeyedBuildResult>, backmap: map<DerivedPath, seq<Aux>>)
    : Result<seq<(Installable, BuiltPathWithResult)>, Error>
  {
    match BuildErrors(store, brs)
    case Fail(e) => Failure(e)
    case Pass => Success(BuiltResults(store, brs, backmap))
  }

  /** What build2 returns. */
  function Build2Result(store: Store, build: (seq<DerivedPath>, BuildMode) -> seq<KeyedBuildResult>,
                        mode: Realise, bMode: BuildMode, insts: seq<Installable>)
    : Result<seq<(Installable, BuiltPathWithResult)>, Error>
  {
    if mode.Outputs? then OutputsResult(store, build(Batch(insts), bMode), BackmapOf(Entries(insts)))
    else Success(StaticResults(store, Batch(insts), BackmapOf(Entries(insts))))
  }

  /** The report printMissing makes when it is enabled. */
  function MissingLogs(store: Store, printMissing: bool, batch: seq<DerivedPath>): seq<LogEntry>
  {
    if printMissing then [MissingReport(LvlInfo, ShowAll(store, batch))] else []
  }

  /** What build2 logs. */
  function Build2Logs(store: Store, build: (seq<DerivedPath>, BuildMode) -> seq<KeyedBuildResult>,
                      printMissing: bool, mode: Realise, bMode: BuildMode, insts: seq<Installable>)
    : seq<LogEntry>
  {
    if mode.Outputs? then MissingLogs(store, printMissing, Batch(insts)) + BuildErrorLogs(build(Batch(insts), bMode))
    else [MissingReport(LvlError, ShowAll(store, Batch(insts)))]
  }

  /** The effect of build2 on the settings, the executor and the logger. */
  twostate predicate Build2Effects(store: Store, executor: Executor, settings: Settings, logger: Logger,
                                   mode: Realise, bMode: BuildMode, insts: seq<Installable>)
    reads executor, settings, logger
  {
    && settings.readOnlyMode == (old(settings.readOnlyMode) || mode.Nothing?)
    && executor.calls == old(executor.calls) + (if mode.Outputs? then [BuildCall(Batch(insts), bMode)] else [])
    && logger.entries == old(logger.entries) + Build2Logs(store, executor.build, settings.printMissing, mode, bMode, insts)
  }

  /** Without building, the results do not depend on the executor at all. */
  lemma StaticModesIgnoreExecutor(store: Store, b1: (seq<DerivedPath>, BuildMode) -> seq<KeyedBuildResult>,
                                  b2: (seq<DerivedPath>, BuildMode) -> seq<KeyedBuildResult>,
                                  mode: Realise, bMode: BuildMode, insts: seq<Installable>)
    requires !mode.Outputs?
    ensures Build2Result(store, b1, mode, bMode, insts) == Build2Result(store, b2, mode, bMode, insts)
    ensures Build2Logs(store, b1, true, mode, bMode, insts) == Build2Logs(store, b2, false, mode, bMode, insts)
  {
  }

  method CollectOutputs(builtOutputs: map<OutputName, Realisation>) returns (outputs: map<OutputName, StorePath>)
    ensures outputs == OutputsOf(builtOutputs)
  {
    outputs := map[];
    var names := SortedElements(builtOutputs.Keys);
    for k := 0 to |names|
      invariant outputs == map n | n in names[..k] :: builtOutputs[n].outPath
    {
      assert names[..k + 1] == names[..k] + [names[k]];
      outputs := outputs[names[k] := builtOutputs[names[k]].outPath];
    }
    assert names[..|names|] == names;
  }

  /** The first half of build2: collect `pathsToBuild` and `backmap`. */
  method PlanBatch(installables: seq<Installable>)
    returns (pathsToBuild: seq<DerivedPath>, backmap: map<DerivedPath, seq<Aux>>)
    ensures pathsToBuild == Batch(installables)
    ensures backmap == BackmapOf(Entries(installables))
  {
    pathsToBuild, backmap := [], map[];
    ghost var es: seq<Entry> := [];
    for i := 0 to |installables|
      invariant es == Entries(installables[..i])
      invariant pathsToBuild == Paths(es)
      invariant backmap == BackmapOf(es)
    {
      var inst := installables[i];
      var bs := inst.derivedPaths;
      for j := 0 to |bs|
        invariant es == Entries(installables[..i]) + EntriesOf(inst)[..j]
        invariant pathsToBuild == Paths(es)
        invariant backmap == BackmapOf(es)
      {
        var aux := Aux(bs[j].info, inst);
        BackmapSnoc(es, Entry(bs[j].path, aux));
        PathsSnoc(es, Entry(bs[j].path, aux));
        pathsToBuild := pathsToBuild + [bs[j].path];
        backmap := backmap[bs[j].path := Lookup(backmap, bs[j].path) + [aux]];
        es := es + [Entry(bs[j].path, aux)];
        EntriesOfPrefix(inst, j);
      }
      assert EntriesOf(inst)[..|bs|] == EntriesOf(inst);
      EntriesPrefix(installables, i);
    }
    assert installables[..|installables|] == installables;
  }

  /** The Nothing/Derivation branch of build2: resolve every request without building. */
  method ResolveWithoutBuilding(store: Store, pathsToBuild: seq<DerivedPath>, backmap: map<DerivedPath, seq<Aux>>)
    returns (res: seq<(Installable, BuiltPathWithResult)>)
    ensures res == StaticResults(store, pathsToBuild, backmap)
  {
    res := [];
    for k := 0 to |pathsToBuild|
      invariant res == StaticResults(store, pathsToBuild[..k], backmap)
    {
      var path := pathsToBuild[k];
      var auxs := Lookup(backmap, path);
      assert pathsToBuild[..k + 1][..k] == pathsToBuild[..k];
      for m := 0 to |auxs|
        invariant res == StaticResults(store, pathsToBuild[..k], backmap) + StaticResultsFor(store, path, auxs[..m])
      {
        var aux := auxs[m];
        ghost var before := StaticResults(store, pathsToBuild[..k], backmap);
        StaticResultsForSnoc(store, path, auxs, m);
        AppendAssoc(before, StaticResultsFor(store, path, auxs[..m]), [StaticResult(store, path, aux)]);
        match path {
          case Built(drvPath, outputSpec) =>
            var outputs := store.resolveOutputs(drvPath, outputSpec);
            res := res + [(aux.installable, BuiltPathWithResult(
              BBuilt(GetBuiltPath(store, drvPath), outputs), aux.info, None))];
          case Opaque(p) =>
            res := res + [(aux.installable, BuiltPathWithResult(BOpaque(p), aux.info, None))];
        }
      }
      assert auxs[..|auxs|] == auxs;
    }
    assert pathsToBuild[..|pathsToBuild|] == pathsToBuild;
  }

  /** The Outputs branch of build2 after a successful build: route each result to its requests. */
  method RouteBuildResults(store: Store, buildResults: seq<KeyedBuildResult>, backmap: map<DerivedPath, seq<Aux>>)
    returns (res: seq<(Installable, BuiltPathWithResult)>)
    ensures res == BuiltResults(store, buildResults, backmap)
  {
    res := [];
    for k := 0 to |buildResults|
      invariant res == BuiltResults(store, buildResults[..k], backmap)
    {
      var buildResult := buildResults[k];
      var auxs := Lookup(backmap, buildResult.path);
      assert buildResults[..k + 1][..k] == buildResults[..k];
      for m := 0 to |auxs|
        invariant res == BuiltResults(store, buildResults[..k], backmap) + BuiltResultsFor(store, buildResult, auxs[..m])
      {
        var aux := auxs[m];
        ghost var before := BuiltResults(store, buildResults[..k], backmap);
        BuiltResultsForSnoc(store, buildResult, auxs, m);
        AppendAssoc(before, BuiltResultsFor(store, buildResult, auxs[..m]), [BuiltResult(store, buildResult, aux)]);
        match buildResult.path {
          case Built(drvPath, _) =>
            var outputs := CollectOutputs(buildResult.builtOutputs);
            res := res + [(aux.installable, BuiltPathWithResult(
              BBuilt(GetBuiltPath(store, drvPath), outputs), aux.info, Some(buildResult)))];
          case Opaque(p) =>
            res := res + [(aux.installable, BuiltPathWithResult(BOpaque(p), aux.info, Some(buildResult)))];
        }
      }
      assert auxs[..|auxs|] == auxs;
    }
    assert buildResults[..|buildResults|] == buildResults;
  }

  /** The Realise::Outputs branch of build2, once the batch is planned. */
  method BuildAndRoute(store: Store, executor: Executor, printMissing: bool, logger: Logger,
                       pathsToBuild: seq<DerivedPath>, backmap: map<DerivedPath, seq<Aux>>, bMode: BuildMode)
    returns (r: Result<seq<(Installable, BuiltPathWithResult)>, Error>)
    modifies executor, logger
    ensures r == OutputsResult(store, executor.build(pathsToBuild, bMode), backmap)
    ensures executor.calls == old(executor.calls) + [BuildCall(pathsToBuild, bMode)]
    ensures logger.entries == old(logger.entries)
      + (MissingLogs(store, printMissing, pathsToBuild) + BuildErrorLogs(executor.build(pathsToBuild, bMode)))
  {
    ghost var missing := MissingLogs(store, printMissing, pathsToBuild);
    if printMissing {
      logger.Log(MissingReport(LvlInfo, ShowAll(store, pathsToBuild)));
    }
    ghost var mid := logger.entries;
    assert mid == old(logger.entries) + missing;
    var buildResults := executor.BuildPathsWithResults(pathsToBuild, bMode);
    var outcome := ThrowBuildErrors(store, buildResults, logger);
    ghost var errors := BuildErrorLogs(buildResults);
    assert logger.entries == mid + errors;
    AppendAssoc(old(logger.entries), missing, errors);
    if outcome.Fail? {
      r := Failure(outcome.error);
    } else {
      var res := RouteBuildResults(store, buildResults, backmap);
      r := Success(res);
    }
  }

  method Build2(store: Store, executor: Executor, settings: Settings, logger: Logger,
                mode: Realise, installables: seq<Installable>, bMode: BuildMode)
    returns (r: Result<seq<(Installable, BuiltPathWithResult)>, Error>)
    modifies settings`readOnlyMode, executor, logger
    ensures r == Build2Result(store, executor.build, mode, bMode, installables)
    ensures Build2Effects(store, executor, settings, logger, mode, bMode, installables)
  {
    if mode.Nothing? {
      settings.readOnlyMode := true;
    }
    var pathsToBuild, backmap := PlanBatch(installables);
    if mode.Outputs? {
      r := BuildAndRoute(store, executor, settings.printMissing, logger, pathsToBuild, backmap, bMode);
    } else {
      logger.Log(MissingReport(LvlError, ShowAll(store, pathsToBuild)));
      var res := ResolveWithoutBuilding(store, pathsToBuild, backmap);
      r := Success(res);
    }
  }

  /** With no path requested twice, build2 without building yields exactly one result per
      request, in request order. */
  lemma {:induction false} StaticResultsDistinct(store: Store, es: seq<Entry>)
    requires forall i, j :: 0 <= i < j < |es| ==> es[i].path != es[j].path
    ensures |StaticResults(store, Paths(es), BackmapOf(es))| == |es|
    ensures forall k :: 0 <= k < |es| ==>
              StaticResults(store, Paths(es), BackmapOf(es))[k] == StaticResult(store, es[k].path, es[k].aux)
  {
    if es != [] {
      var es', e := es[..|es| - 1], es[|es| - 1];
      assert es == es' + [e];
      StaticResultsDistinct(store, es');
      assert e.path !in Paths(es');
      StaticResultsFresh(store, es', e);
      var front := StaticResults(store, Paths(es'), BackmapOf(es'));
      assert StaticResults(store, Paths(es), BackmapOf(es)) == front + [StaticResult(store, e.path, e.aux)];
      forall k | 0 <= k < |es'|
        ensures front[k] == StaticResult(store, es[k].path, es[k].aux)
      {
        assert es[k] == es'[k];
      }
    }
  }

  /** A request for a path not yet in the batch adds exactly its own result at the end. */
  lemma StaticResultsFresh(store: Store, es: seq<Entry>, e: Entry)
    requires e.path !in Paths(es)
    ensures StaticResults(store, Paths(es + [e]), BackmapOf(es + [e])) ==
            StaticResults(store, Paths(es), BackmapOf(es)) + [StaticResult(store, e.path, e.aux)]
  {
    var ps, bm := Paths(es + [e]), BackmapOf(es + [e]);
    PathsSnoc(es, e);
    assert ps[..|ps| - 1] == Paths(es) && ps[|ps| - 1] == e.path;
    BackmapFresh(es, e);
    StaticResultsAgree(store, Paths(es), bm, BackmapOf(es));
    assert StaticResultsFor(store, e.path, [e.aux]) == [StaticResult(store, e.path, e.aux)];
  }

  /** The backmap after a request for a path not yet in the batch. */
  lemma BackmapFresh(es: seq<Entry>, e: Entry)
    requires e.path !in Paths(es)
    ensures Lookup(BackmapOf(es + [e]), e.path) == [e.aux]
    ensures forall p :: p in Paths(es) ==> Lookup(BackmapOf(es + [e]), p) == Lookup(BackmapOf(es), p)
  {
    BackmapSnoc(es, e);
    LookupBackmap(es, e.path);
    OccurrencesAbsent(es, e.path);
  }

  lemma {:induction false} StaticResultsAgree(store: Store, ps: seq<DerivedPath>, bm1: map<DerivedPath, seq<Aux>>,
                                              bm2: map<DerivedPath, seq<Aux>>)
    requires forall p :: p in ps ==> Lookup(bm1, p) == Lookup(bm2, p)
    ensures StaticResults(store, ps, bm1) == StaticResults(store, ps, bm2)
  {
    if ps != [] {
      StaticResultsAgree(store, ps[..|ps| - 1], bm1, bm2);
    }
  }

  /** Installable::build: build2's results without the installables. */
  function Unkeyed(v: seq<(Installable, BuiltPathWithResult)>): (r: seq<BuiltPathWithResult>)
    ensures |r| == |v|
    ensures forall k :: 0 <= k < |v| ==> r[k] == v[k].1
  {
    seq(|v|, k requires 0 <= k < |v| => v[k].1)
  }

  lemma UnkeyedSnoc(v: seq<(Installable, BuiltPathWithResult)>, k: nat)
    requires k < |v|
    ensures Unkeyed(v[..k + 1]) == Unkeyed(v[..k]) + [v[k].1]
  {
  }

  function BuildResultOf(store: Store, build: (seq<DerivedPath>, BuildMode) -> seq<KeyedBuildResult>,
                         mode: Realise, bMode: BuildMode, insts: seq<Installable>)
    : Result<seq<BuiltPathWithResult>, Error>
  {
    match Build2Result(store, build, mode, bMode, insts)
    case Failure(e) => Failure(e)
    case Success(v) => Success(Unkeyed(v))
  }

  method Build(store: Store, executor: Executor, settings: Settings, logger: Logger,
               mode: Realise, installables: seq<Installable>, bMode: BuildMode)
    returns (r: Result<seq<BuiltPathWithResult>, Error>)
    modifies settings`readOnlyMode, executor, logger
    ensures r == BuildResultOf(store, executor.build, mode, bMode, installables)
    ensures Build2Effects(store, executor, settings, logger, mode, bMode, installables)
  {
    var pairs :- Build2(store, executor, settings, logger, mode, installables, bMode);
    var res := DropInstallables(pairs);
    return Success(res);
  }

  /** The loop of Installable::build: each result of build2 without its installable. */
  method DropInstallables(pairs: seq<(Installable, BuiltPathWithResult)>) returns (res: seq<BuiltPathWithResult>)
    ensures res == Unkeyed(pairs)
  {
    res := [];
    for k := 0 to |pairs|
      invariant res == Unkeyed(pairs[..k])
    {
      UnkeyedSnoc(pairs, k);
      res := res + [pairs[k].1];
    }
    assert pairs[..|pairs|] == pairs;
  }

  /** The free function toBuiltPaths: the built paths of a list of results, in order.
      It has the shape of `Paths`, but projects build results rather than requests. */
  function PathsOfResults(v: seq<BuiltPathWithResult>): (r: seq<BuiltPath>)
    ensures |r| == |v|
    ensures forall k :: 0 <= k < |v| ==> r[k] == v[k].path
  {
    seq(|v|, k requires 0 <= k < |v| => v[k].path)
  }

  method ToBuiltPathsFromResults(builtPathsWithResult: seq<BuiltPathWithResult>) returns (res: seq<BuiltPath>)
    ensures res == PathsOfResults(builtPathsWithResult)
  {
    res := [];
    for k := 0 to |builtPathsWithResult|
      invariant |res| == k
      invariant forall m :: 0 <= m < k ==> res[m] == builtPathsWithResult[m].path
    {
      res := res + [builtPathsWithResult[k].path];
    }
  }

  // ---------------------------------------------------------------------------------
  // toDerivations, getDeriver

  /** getDeriver: the first valid deriver in StorePathSet order. */
  function GetDeriver(store: Store, i: Installable, drvPath: StorePath): (r: Result<StorePath, Error>)
    ensures r.Failure? <==> store.queryValidDerivers(drvPath) == {}
    ensures r.Failure? ==> r.error == NoKnownDeriver(i.what)
    ensures r.Success? ==> r.value in store.queryValidDerivers(drvPath)
    ensures r.Success? ==> forall d :: d in store.queryValidDerivers(drvPath) && d != r.value ==> Less(r.value, d)
  {
    var derivers := store.queryValidDerivers(drvPath);
    if derivers == {} then Failure(NoKnownDeriver(i.what))
    else
      LeastIsLeast(derivers);
      Success(Least(derivers))
  }

  /** The derivation one request contributes to toDerivations. */
  function DrvFor(store: Store, e: Entry, useDeriver: bool): Result<StorePath, Error>
  {
    match e.path
    case Opaque(path) =>
      if IsDerivation(path) then Success(path)
      else if useDeriver then GetDeriver(store, e.aux.installable, path)
      else Failure(NotADerivation(e.aux.installable.what))
    case Built(drvPath, _) => Success(store.resolveSingle(drvPath))
  }

  /** toDerivations over a list of requests: the first failing request's error, or the set. */
  function Derivations(store: Store, es: seq<Entry>, useDeriver: bool): Result<set<StorePath>, Error>
  {
    if es == [] then Success({})
    else
      match Derivations(store, es[..|es| - 1], useDeriver)
      case Failure(err) => Failure(err)
      case Success(drvs) =>
        match DrvFor(store, es[|es| - 1], useDeriver)
        case Failure(err) => Failure(err)
        case Success(d) => Success(drvs + {d})
  }

  lemma {:induction false} DerivationsKeepFailure(store: Store, es: seq<Entry>, rest: seq<Entry>, useDeriver: bool)
    requires Derivations(store, es, useDeriver).Failure?
    ensures Derivations(store, es + rest, useDeriver) == Derivations(store, es, useDeriver)
    decreases |rest|
  {
    if rest == [] {
      assert es + rest == es;
    } else {
      var rest' := rest[..|rest| - 1];
      assert (es + rest)[..|es + rest| - 1] == es + rest';
      DerivationsKeepFailure(store, es, rest', useDeriver);
    }
  }

  /** toDerivations succeeds exactly when every request yields a derivation, and then
      returns the set of them. */
  lemma {:induction false} DerivationsSuccess(store: Store, es: seq<Entry>, useDeriver: bool)
    ensures Derivations(store, es, useDeriver).Success? <==>
            forall k :: 0 <= k < |es| ==> DrvFor(store, es[k], useDeriver).Success?
    ensures Derivations(store, es, useDeriver).Success? ==>
            Derivations(store, es, useDeriver).value ==
              set k | 0 <= k < |es| && DrvFor(store, es[k], useDeriver).Success? :: DrvFor(store, es[k], useDeriver).value
  {
    if es != [] {
      var es' := es[..|es| - 1];
      DerivationsSuccess(store, es', useDeriver);
      assert forall k :: 0 <= k < |es'| ==> es'[k] == es[k];
      if Derivations(store, es, useDeriver).Success? {
        var last := |es| - 1;
        assert (set k | 0 <= k < |es| && DrvFor(store, es[k], useDeriver).Success? :: DrvFor(store, es[k], useDeriver).value)
            == (set k | 0 <= k < |es'| && DrvFor(store, es'[k], useDeriver).Success? :: DrvFor(store, es'[k], useDeriver).value)
               + {DrvFor(store, es[last], useDeriver).value};
      }
    }
  }

  /** When toDerivations fails, it fails with the error of the first failing request. */
  lemma {:induction false} DerivationsFirstError(store: Store, es: seq<Entry>, useDeriver: bool)
    requires Derivations(store, es, useDeriver).Failure?
    ensures exists k ::
              && 0 <= k < |es|
              && DrvFor(store, es[k], useDeriver) == Failure(Derivations(store, es, useDeriver).error)
              && forall j :: 0 <= j < k ==> DrvFor(store, es[j], useDeriver).Success?
  {
    var es' := es[..|es| - 1];
    assert forall k :: 0 <= k < |es'| ==> es'[k] == es[k];
    if Derivations(store, es', useDeriver).Failure? {
      DerivationsFirstError(store, es', useDeriver);
      var k :| 0 <= k < |es'|
        && DrvFor(store, es'[k], useDeriver) == Failure(Derivations(store, es', useDeriver).error)
        && forall j :: 0 <= j < k ==> DrvFor(store, es'[j], useDeriver).Success?;
      assert DrvFor(store, es[k], useDeriver) == Failure(Derivations(store, es, useDeriver).error);
    } else {
      DerivationsSuccess(store, es', useDeriver);
      var k := |es| - 1;
      assert forall j :: 0 <= j < k ==> DrvFor(store, es[j], useDeriver).Success?;
    }
  }

  /** A `drv^outputs` request contributes what its derivation reference resolves to, which is
      getBuiltPath's store path for it, and for a constant reference the derivation itself. */
  lemma DrvForBuiltRequest(store: Store, e: Entry, useDeriver: bool)
    requires StoreOk(store) && e.path.Built?
    ensures DrvFor(store, e, useDeriver) == Success(OutPath(GetBuiltPath(store, e.path.drvPath)))
    ensures e.path.drvPath.SOpaque? ==> DrvFor(store, e, useDeriver) == Success(e.path.drvPath.path)
  {
    GetBuiltPathResolves(store, e.path.drvPath);
  }

  /** toDerivations over `drv^outputs` requests with constant references is the set of their
      derivations. */
  lemma DerivationsOfDrvRequests(store: Store, es: seq<Entry>, useDeriver: bool)
    requires StoreOk(store)
    requires forall k :: 0 <= k < |es| ==> es[k].path.Built? && es[k].path.drvPath.SOpaque?
    ensures Derivations(store, es, useDeriver) == Success(set k | 0 <= k < |es| :: es[k].path.drvPath.path)
  {
    forall k | 0 <= k < |es|
      ensures DrvFor(store, es[k], useDeriver) == Success(es[k].path.drvPath.path)
    {
      DrvForBuiltRequest(store, es[k], useDeriver);
    }
    DerivationsOfConstantRefs(store, es, useDeriver);
  }

  lemma DerivationsOfConstantRefs(store: Store, es: seq<Entry>, useDeriver: bool)
    requires forall k :: 0 <= k < |es| ==>
               && es[k].path.Built? && es[k].path.drvPath.SOpaque?
               && DrvFor(store, es[k], useDeriver) == Success(es[k].path.drvPath.path)
    ensures Derivations(store, es, useDeriver) == Success(set k | 0 <= k < |es| :: es[k].path.drvPath.path)
  {
    DerivationsSuccess(store, es, useDeriver);
    var found := set k | 0 <= k < |es| && DrvFor(store, es[k], useDeriver).Success? :: DrvFor(store, es[k], useDeriver).value;
    var drvs := set k | 0 <= k < |es| :: es[k].path.drvPath.path;
    forall x | x in found ensures x in drvs {
      var k :| 0 <= k < |es| && DrvFor(store, es[k], useDeriver).Success? && x == DrvFor(store, es[k], useDeriver).value;
    }
    forall x | x in drvs ensures x in found {
      var k :| 0 <= k < |es| && x == es[k].path.drvPath.path;
      assert DrvFor(store, es[k], useDeriver).Success?;
    }
    assert found == drvs;
  }

  method ToDerivations(store: Store, installables: seq<Installable>, useDeriver: bool)
    returns (r: Result<set<StorePath>, Error>)
    ensures r == Derivations(store, Entries(installables), useDeriver)
  {
    var drvPaths: set<StorePath> := {};
    ghost var es: seq<Entry> := [];
    for i := 0 to |installables|
      invariant es == Entries(installables[..i])
      invariant Derivations(store, es, useDeriver) == Success(drvPaths)
    {
      var inst := installables[i];
      var bs := inst.derivedPaths;
      for j := 0 to |bs|
        invariant es == Entries(installables[..i]) + EntriesOf(inst)[..j]
        invariant Derivations(store, es, useDeriver) == Success(drvPaths)
      {
        var b := bs[j];
        ghost var e := Entry(b.path, Aux(b.info, inst));
        var drv: Result<StorePath, Error>;
        match b.path {
          case Opaque(path) =>
            if IsDerivation(path) {
              drv := Success(path);
            } else if useDeriver {
              drv := GetDeriver(store, inst, path);
            } else {
              drv := Failure(NotADerivation(inst.what));
            }
          case Built(drvPath, _) =>
            drv := Success(store.resolveSingle(drvPath));
        }
        assert drv == DrvFor(store, e, useDeriver);
        assert (es + [e])[..|es|] == es;
        EntriesOfPrefix(inst, j);
        if drv.Failure? {
          EntriesAfter(installables, i, j);
          DerivationsKeepFailure(store, es + [e], EntriesOf(inst)[j + 1..] + Entries(installables[i + 1..]), useDeriver);
          return Failure(drv.error);
        }
        drvPaths := drvPaths + {drv.value};
        es := es + [e];
      }
      assert EntriesOf(inst)[..|bs|] == EntriesOf(inst);
      EntriesPrefix(installables, i);
    }
    assert installables[..|installables|] == installables;
    return Success(drvPaths);
  }

  /** All requests, split at the j-th path of the i-th installable. */
  lemma EntriesAfter(insts: seq<Installable>, i: nat, j: nat)
    requires i < |insts| && j < |insts[i].derivedPaths|
    ensures Entries(insts) ==
      (Entries(insts[..i]) + EntriesOf(insts[i])[..j] + [EntriesOf(insts[i])[j]])
      + (EntriesOf(insts[i])[j + 1..] + Entries(insts[i + 1..]))
  {
    EntriesSplit(insts, i);
    var before, eo, after := Entries(insts[..i]), EntriesOf(insts[i]), Entries(insts[i + 1..]);
    var x, y, z := eo[..j], [eo[j]], eo[j + 1..];
    assert eo == x + y + z;
    AppendAssoc(before, x + y, z);
    AppendAssoc(before + (x + y), z, after);
    AppendAssoc(before, x, y);
  }

  // ---------------------------------------------------------------------------------
  // toBuiltPaths, toStorePathSet, toStorePaths, toStorePath

  function OpaqueAll(ps: seq<StorePath>): (r: seq<BuiltPath>)
    ensures |r| == |ps|
    ensures forall k :: 0 <= k < |ps| ==> r[k] == BOpaque(ps[k])
  {
    seq(|ps|, k requires 0 <= k < |ps| => BOpaque(ps[k]))
  }

  /** The derivation branch of toBuiltPaths: each derivation, in set order, as an opaque path. */
  method OpaqueDerivations(drvPaths: set<StorePath>) returns (res: seq<BuiltPath>)
    ensures res == OpaqueAll(SortedElements(drvPaths))
  {
    var ordered := SortedElements(drvPaths);
    res := [];
    for k := 0 to |ordered|
      invariant res == OpaqueAll(ordered[..k])
    {
      res := res + [BOpaque(ordered[k])];
    }
    assert ordered[..|ordered|] == ordered;
  }

  /** What toBuiltPaths returns. */
  function ToBuiltPathsResult(store: Store, build: (seq<DerivedPath>, BuildMode) -> seq<KeyedBuildResult>,
                              mode: Realise, operateOn: OperateOn, insts: seq<Installable>)
    : Result<seq<BuiltPath>, Error>
  {
    if operateOn.Output? then
      match BuildResultOf(store, build, mode, Normal, insts)
      case Failure(e) => Failure(e)
      case Success(v) => Success(PathsOfResults(v))
    else
      match Derivations(store, Entries(insts), true)
      case Failure(e) => Failure(e)
      case Success(drvs) => Success(OpaqueAll(SortedElements(drvs)))
  }

  /** The effect of toBuiltPaths: build2's when operating on outputs; otherwise only the
      read-only switch, and no build and no log line. */
  twostate predicate ToBuiltPathsEffects(store: Store, executor: Executor, settings: Settings, logger: Logger,
                                         mode: Realise, operateOn: OperateOn, insts: seq<Installable>)
    reads executor, settings, logger
  {
    if operateOn.Output? then Build2Effects(store, executor, settings, logger, mode, Normal, insts)
    else
      && settings.readOnlyMode == (old(settings.readOnlyMode) || mode.Nothing?)
      && executor.calls == old(executor.calls)
      && logger.entries == old(logger.entries)
  }

  method ToBuiltPaths(store: Store, executor: Executor, settings: Settings, logger: Logger,
                      mode: Realise, operateOn: OperateOn, installables: seq<Installable>)
    returns (r: Result<seq<BuiltPath>, Error>)
    modifies settings`readOnlyMode, executor, logger
    ensures r == ToBuiltPathsResult(store, executor.build, mode, operateOn, installables)
    ensures ToBuiltPathsEffects(store, executor, settings, logger, mode, operateOn, installables)
  {
    if operateOn.Output? {
      var results :- Build(store, executor, settings, logger, mode, installables, Normal);
      var res := ToBuiltPathsFromResults(results);
      assert res == PathsOfResults(results);
      return Success(res);
    } else {
      if mode.Nothing? {
        settings.readOnlyMode := true;
      }
      var drvPaths :- ToDerivations(store, installables, true);
      var res := OpaqueDerivations(drvPaths);
      return Success(res);
    }
  }

  /** Every output path of a list of built paths, as a set. */
  function UnionOutPaths(bps: seq<BuiltPath>): set<StorePath>
  {
    if bps == [] then {} else UnionOutPaths(bps[..|bps| - 1]) + OutPaths(bps[|bps| - 1])
  }

  function Flatten(ss: seq<seq<StorePath>>): seq<StorePath>
  {
    if ss == [] then [] else Flatten(ss[..|ss| - 1]) + ss[|ss| - 1]
  }

  /** Each built path's outputs, in set order. */
  function OutPathLists(bps: seq<BuiltPath>): (r: seq<seq<StorePath>>)
    ensures |r| == |bps|
    ensures forall k :: 0 <= k < |bps| ==> r[k] == SortedElements(OutPaths(bps[k]))
  {
    seq(|bps|, k requires 0 <= k < |bps| => SortedElements(OutPaths(bps[k])))
  }

  /** Every output path of a list of built paths, in order, each path's outputs in set order. */
  function ConcatOutPaths(bps: seq<BuiltPath>): seq<StorePath>
  {
    Flatten(OutPathLists(bps))
  }

  lemma {:induction false} UnionOutPathsMember(bps: seq<BuiltPath>, p: StorePath)
    ensures p in UnionOutPaths(bps) <==> exists k :: 0 <= k < |bps| && p in OutPaths(bps[k])
  {
    if bps != [] {
      var bps' := bps[..|bps| - 1];
      UnionOutPathsMember(bps', p);
      assert forall k :: 0 <= k < |bps'| ==> bps'[k] == bps[k];
    }
  }

  lemma {:induction false} FlattenMember(ss: seq<seq<StorePath>>, p: StorePath)
    ensures p in Flatten(ss) <==> exists k :: 0 <= k < |ss| && p in ss[k]
  {
    if ss != [] {
      var ss' := ss[..|ss| - 1];
      FlattenMember(ss', p);
      assert forall k :: 0 <= k < |ss'| ==> ss'[k] == ss[k];
    }
  }

  /** toStorePaths and toStorePathSet list the same paths; the former keeps duplicates. */
  lemma ConcatCoversUnion(bps: seq<BuiltPath>, p: StorePath)
    ensures p in ConcatOutPaths(bps) <==> p in UnionOutPaths(bps)
  {
    FlattenMember(OutPathLists(bps), p);
    UnionOutPathsMember(bps, p);
  }

  lemma {:induction false} FlattenAppend(a: seq<seq<StorePath>>, b: seq<seq<StorePath>>)
    ensures Flatten(a + b) == Flatten(a) + Flatten(b)
    decreases |b|
  {
    if b == [] {
      assert a + b == a;
    } else {
      var b' := b[..|b| - 1];
      assert (a + b)[..|a + b| - 1] == a + b';
      assert (a + b)[|a + b| - 1] == b[|b| - 1];
      FlattenAppend(a, b');
    }
  }

  /** toStorePaths keeps installable order: the paths of a + b are those of a, then those of b. */
  lemma ConcatOutPathsAppend(a: seq<BuiltPath>, b: seq<BuiltPath>)
    ensures ConcatOutPaths(a + b) == ConcatOutPaths(a) + ConcatOutPaths(b)
  {
    assert OutPathLists(a + b) == OutPathLists(a) + OutPathLists(b);
    FlattenAppend(OutPathLists(a), OutPathLists(b));
  }

  function ToStorePathSetResult(store: Store, build: (seq<DerivedPath>, BuildMode) -> seq<KeyedBuildResult>,
                                mode: Realise, operateOn: OperateOn, insts: seq<Installable>)
    : Result<set<StorePath>, Error>
  {
    match ToBuiltPathsResult(store, build, mode, operateOn, insts)
    case Failure(e) => Failure(e)
    case Success(bps) => Success(UnionOutPaths(bps))
  }

  method ToStorePathSet(store: Store, executor: Executor, settings: Settings, logger: Logger,
                        mode: Realise, operateOn: OperateOn, installables: seq<Installable>)
    returns (r: Result<set<StorePath>, Error>)
    modifies settings`readOnlyMode, executor, logger
    ensures r == ToStorePathSetResult(store, executor.build, mode, operateOn, installables)
    ensures ToBuiltPathsEffects(store, executor, settings, logger, mode, operateOn, installables)
  {
    var bps :- ToBuiltPaths(store, executor, settings, logger, mode, operateOn, installables);
    var outPaths := UniteOutPaths(bps);
    return Success(outPaths);
  }

  /** The loop of toStorePathSet. */
  method UniteOutPaths(bps: seq<BuiltPath>) returns (outPaths: set<StorePath>)
    ensures outPaths == UnionOutPaths(bps)
  {
    outPaths := {};
    for k := 0 to |bps|
      invariant outPaths == UnionOutPaths(bps[..k])
    {
      assert bps[..k + 1][..k] == bps[..k];
      outPaths := outPaths + OutPaths(bps[k]);
    }
    assert bps[..|bps|] == bps;
  }

  method ToStorePaths(store: Store, executor: Executor, settings: Settings, logger: Logger,
                      mode: Realise, operateOn: OperateOn, installables: seq<Installable>)
    returns (r: Result<seq<StorePath>, Error>)
    modifies settings`readOnlyMode, executor, logger
    ensures match ToBuiltPathsResult(store, executor.build, mode, operateOn, installables)
      case Failure(e) => r == Failure(e)
      case Success(bps) => r == Success(ConcatOutPaths(bps))
    ensures ToBuiltPathsEffects(store, executor, settings, logger, mode, operateOn, installables)
  {
    var bps :- ToBuiltPaths(store, executor, settings, logger, mode, operateOn, installables);
    var outPaths := ConcatenateOutPaths(bps);
    return Success(outPaths);
  }

  /** The loop of toStorePaths. */
  method ConcatenateOutPaths(bps: seq<BuiltPath>) returns (outPaths: seq<StorePath>)
    ensures outPaths == ConcatOutPaths(bps)
  {
    outPaths := [];
    for k := 0 to |bps|
      invariant outPaths == ConcatOutPaths(bps[..k])
    {
      var thisOutPaths := SortedElements(OutPaths(bps[k]));
      assert bps[..k + 1] == bps[..k] + [bps[k]];
      ConcatOutPathsAppend(bps[..k], [bps[k]]);
      assert OutPathLists([bps[k]]) == [thisOutPaths];
      assert Flatten([thisOutPaths]) == thisOutPaths by {
        assert [thisOutPaths][..0] == [];
      }
      outPaths := outPaths + thisOutPaths;
    }
    assert bps[..|bps|] == bps;
  }

  method ToStorePath(store: Store, executor: Executor, settings: Settings, logger: Logger,
                     mode: Realise, operateOn: OperateOn, installable: Installable)
    returns (r: Result<StorePath, Error>)
    modifies settings`readOnlyMode, executor, logger
    ensures match ToStorePathSetResult(store, executor.build, mode, operateOn, [installable])
      case Failure(e) => r == Failure(e)
      case Success(paths) =>
        && (|paths| == 1 ==> r.Success? && paths == {r.value})
        && (|paths| != 1 ==> r == Failure(NotOneStorePath(installable.what)))
    ensures ToBuiltPathsEffects(store, executor, settings, logger, mode, operateOn, [installable])
  {
    var paths :- ToStorePathSet(store, executor, settings, logger, mode, operateOn, [installable]);
    if |paths| != 1 {
      return Failure(NotOneStorePath(installable.what));
    }
    var first := Least(paths);
    assert |paths - {first}| == 0;
    assert paths == {first};
    return Success(first);
  }

  /** Installable::toDerivedPath: the one derived path an installable must expand to. */
  function ToDerivedPath(i: Installable): (r: Result<DerivedPathWithInfo, Error>)
    ensures r.Success? <==> |i.derivedPaths| == 1
    ensures r.Success? ==> r.value == i.derivedPaths[0]
    ensures r.Failure? ==> r.error == NotOneDerivation(i.what, |i.derivedPaths|)
  {
    if |i.derivedPaths| != 1 then Failure(NotOneDerivation(i.what, |i.derivedPaths|))
    else Success(i.derivedPaths[0])
  }

  // ---------------------------------------------------------------------------------
  // Command-line defaults

  /** RawInstallablesCommand::applyDefaultInstallables: no installable means ".". */
  function DefaultRawInstallables(rawInstallables: seq<string>): (r: seq<string>)
    ensures r != []
    ensures rawInstallables != [] ==> r == rawInstallables
    ensures rawInstallables == [] ==> r == ["."]
  {
    if rawInstallables == [] then ["."] else rawInstallables
  }

  /** BuiltPathsCommand::applyDefaultInstallables: as above, except under --all. */
  function DefaultBuiltPathsInstallables(rawInstallables: seq<string>, all: bool): (r: seq<string>)
    ensures r == [] <==> rawInstallables == [] && all
    ensures rawInstallables != [] ==> r == rawInstallables
    ensures !all ==> r == DefaultRawInstallables(rawInstallables)
  {
    if rawInstallables == [] && !all then ["."] else rawInstallables
  }

  lemma DefaultsIdempotent(rawInstallables: seq<string>, all: bool)
    ensures DefaultRawInstallables(DefaultRawInstallables(rawInstallables)) == DefaultRawInstallables(rawInstallables)
    ensures DefaultBuiltPathsInstallables(DefaultBuiltPathsInstallables(rawInstallables, all), all)
         == DefaultBuiltPathsInstallables(rawInstallables, all)
  {
  }

  /** Where parseInstallables takes its expression from under --file / --expr. */
  datatype ExprSource = Stdin | File(path: string) | Expr(text: string)

  datatype SourceChoice = SourceChoice(source: Option<ExprSource>, pureEval: bool)

  /** The --file / --expr decision of parseInstallables, with the evaluator's pure-eval setting. */
  function SelectSource(file: Option<string>, expr: Option<string>, pureEval: bool): (r: Result<SourceChoice, Error>)
    ensures r.Failure? <==> file.Some? && expr.Some?
    ensures r.Failure? ==> r.error == UsageError("'--file' and '--expr' are exclusive")
    ensures r.Success? ==> r.value.pureEval == (pureEval && file.None?)
    ensures r.Success? ==> (r.value.source == Some(Stdin) <==> file == Some("-"))
    ensures r.Success? && file.Some? && file.value != "-" ==> r.value.source == Some(File(file.value))
    ensures r.Success? && expr.Some? ==> r.value.source == Some(Expr(expr.value))
    ensures r.Success? ==> (r.value.source.None? <==> file.None? && expr.None?)
  {
    if file.None? && expr.None? then Success(SourceChoice(None, pureEval))
    else if file.Some? && expr.Some? then Failure(UsageError("'--file' and '--expr' are exclusive"))
    else if file.Some? then
      Success(SourceChoice(Some(if file.value == "-" then Stdin else File(file.value)), false))
    else Success(SourceChoice(Some(Expr(expr.value)), pureEval))
  }
}
