/** Patches that providers apply to paths before they look them up. */
module PathPatches {
  import opened Paths
  import opened ConfigErrors

  datatype PathPatch =
    | Empty
    | AndThen(first: PathPatch, second: PathPatch)
    | MapName(f: string -> string)
    | Nested(name: string)
    | Unnested(name: string)

  function Renamed(path: Path, f: string -> string): (r: Path)
    ensures |r| == |path| && forall i :: 0 <= i < |path| ==> r[i] == f(path[i])
  {
    if path == [] then [] else [f(path[0])] + Renamed(path[1..], f)
  }

  /** A sequence of patches is applied from the first to the second, and stops at the first error. */
  function Apply(path: Path, patch: PathPatch): Either<ConfigError, Path>
    decreases patch
  {
    match patch
    case Empty => Right(path)
    case AndThen(first, second) =>
      (match Apply(path, first) case Left(e) => Left(e) case Right(p) => Apply(p, second))
    case MapName(f) => Right(Renamed(path, f))
    case Nested(name) => Right([name] + path)
    case Unnested(name) =>
      if path != [] && path[0] == name then Right(path[1..]) else Left(MissingData(path, NotInPath(name)))
  }

  ghost function ApplyAll(path: Path, patches: seq<PathPatch>): Either<ConfigError, Path>
    decreases patches
  {
    if patches == [] then Right(path)
    else match Apply(path, patches[0]) case Left(e) => Left(e) case Right(p) => ApplyAll(p, patches[1..])
  }

  ghost function Size(patch: PathPatch): nat {
    match patch
    case AndThen(first, second) => 1 + Size(first) + Size(second)
    case _ => 1
  }

  ghost function SizeAll(patches: seq<PathPatch>): nat {
    if patches == [] then 0 else Size(patches[0]) + SizeAll(patches[1..])
  }

  lemma {:induction false} ApplyOne(path: Path, patch: PathPatch, rest: seq<PathPatch>)
    ensures ApplyAll(path, [patch] + rest) ==
      match Apply(path, patch) case Left(e) => Left(e) case Right(p) => ApplyAll(p, rest)
    ensures SizeAll([patch] + rest) == Size(patch) + SizeAll(rest)
  {
    assert ([patch] + rest)[1..] == rest;
  }

  lemma {:induction false} ApplyPair(path: Path, first: PathPatch, second: PathPatch, rest: seq<PathPatch>)
    ensures ApplyAll(path, [first] + ([second] + rest)) == ApplyAll(path, [AndThen(first, second)] + rest)
    ensures SizeAll([first] + ([second] + rest)) < SizeAll([AndThen(first, second)] + rest)
  {
    ApplyOne(path, first, [second] + rest);
    ApplyOne(path, AndThen(first, second), rest);
    match Apply(path, first)
    case Left(_) => ApplyOne(path, second, rest);
    case Right(p) => ApplyOne(p, second, rest);
  }

  /** The worklist machine applies the patch as its structure says. */
  method Patch(path: Path, patch: PathPatch) returns (r: Either<ConfigError, Path>)
    ensures r == Apply(path, patch)
  {
    var input := [patch];
    var output := path;
    ApplyOne(path, patch, []);
    assert [patch] + [] == input;
    while input != []
      invariant ApplyAll(output, input) == Apply(path, patch)
      decreases SizeAll(input)
    {
      var head, tail := input[0], input[1..];
      assert input == [head] + tail;
      match head {
        case Empty =>
        case AndThen(first, second) =>
          ApplyPair(output, first, second, tail);
          input := [first] + ([second] + tail);
          continue;
        case MapName(f) =>
          output := Renamed(output, f);
        case Nested(name) =>
          output := [name] + output;
        case Unnested(name) =>
          if output != [] && output[0] == name {
            output := output[1..];
          } else {
            return Left(MissingData(output, NotInPath(name)));
          }
      }
      input := tail;
    }
    return Right(output);
  }

  /** Renaming maps every segment, and renaming twice is renaming by the composition, so that provider names may
      be changed in stages. */
  lemma {:induction false} RenamingComposes(path: Path, f: string -> string, g: string -> string)
    ensures var r := Apply(path, MapName(f));
      r.Right? && |r.right| == |path| && forall i :: 0 <= i < |path| ==> r.right[i] == f(path[i])
    ensures Apply(path, AndThen(MapName(f), MapName(g))) == Apply(path, MapName(s => g(f(s))))
  {
    assert Renamed(Renamed(path, f), g) == Renamed(path, s => g(f(s)));
  }

  /** Unnesting undoes nesting, after any patch. */
  lemma {:induction false} UnnestUndoesNest(path: Path, patch: PathPatch, name: string)
    ensures Apply(path, AndThen(AndThen(patch, Nested(name)), Unnested(name))) == Apply(path, patch)
  {
    match Apply(path, patch)
    case Left(_) =>
      assert Apply(path, AndThen(patch, Nested(name))).Left?;
    case Right(p) =>
      assert Apply(path, AndThen(patch, Nested(name))) == Right([name] + p);
      assert ([name] + p)[1..] == p;
  }

  /** Nesting undoes unnesting exactly where unnesting succeeds. */
  lemma {:induction false} NestUndoesUnnestIff(path: Path, name: string)
    ensures Apply(path, AndThen(Unnested(name), Nested(name))) == Right(path) <==> path != [] && path[0] == name
  {
    if path != [] && path[0] == name {
      assert [name] + path[1..] == path;
    }
  }
}
