/**
 * Nix's derived paths: a store object given directly ("opaque"), or an output of a
 * derivation that is itself given by a derived path ("built"), and their resolved forms.
 */
module DerivedPaths {
  import opened Strings

  /** A store path, by its base name `<hash>-<name>`; store paths compare by this string. */
  type StorePath = string

  type OutputName = string

  /** StorePath::isDerivation: the name ends in ".drv". */
  predicate IsDerivation(p: StorePath)
  {
    HasSuffix(p, ".drv")
  }

  /** Which outputs of a derivation are wanted: all of them, or the named ones. */
  datatype OutputsSpec = All | Names(names: set<OutputName>)

  /** SingleDerivedPath: a store path, or one output of a derivation given recursively. */
  datatype SingleDerivedPath =
    | SOpaque(path: StorePath)
    | SBuilt(drvPath: SingleDerivedPath, output: OutputName)

  /** DerivedPath: like SingleDerivedPath, but a built path names a set of outputs. */
  datatype DerivedPath =
    | Opaque(path: StorePath)
    | Built(drvPath: SingleDerivedPath, outputs: OutputsSpec)

  /** SingleBuiltPath: every level carries the store path it resolved to. */
  datatype SingleBuiltPath =
    | SBOpaque(path: StorePath)
    | SBBuilt(drvPath: SingleBuiltPath, output: (OutputName, StorePath))

  /** BuiltPath: a store path, or a resolved derivation with its output map. */
  datatype BuiltPath =
    | BOpaque(path: StorePath)
    | BBuilt(drvPath: SingleBuiltPath, outputs: map<OutputName, StorePath>)

  /** SingleBuiltPath::outPath */
  function OutPath(p: SingleBuiltPath): StorePath
  {
    match p
    case SBOpaque(path) => path
    case SBBuilt(_, output) => output.1
  }

  /** BuiltPath::outPaths */
  function OutPaths(p: BuiltPath): set<StorePath>
  {
    match p
    case BOpaque(path) => {path}
    case BBuilt(_, outputs) => outputs.Values
  }

  /** SingleBuiltPath::discardOutputPath: forget what each level resolved to. */
  function Discard(p: SingleBuiltPath): SingleDerivedPath
  {
    match p
    case SBOpaque(path) => SOpaque(path)
    case SBBuilt(drvPath, output) => SBuilt(Discard(drvPath), output.0)
  }

  /** The number of Built levels above the opaque store path at the bottom. */
  function Depth(p: SingleDerivedPath): nat
  {
    match p
    case SOpaque(_) => 0
    case SBuilt(drvPath, _) => 1 + Depth(drvPath)
  }

  /** The output names of the Built levels, innermost first. */
  function OutputChain(p: SingleDerivedPath): seq<OutputName>
  {
    match p
    case SOpaque(_) => []
    case SBuilt(drvPath, output) => OutputChain(drvPath) + [output]
  }
}
