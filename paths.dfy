/** The file system as the build script sees it through `_isValidPath`, and
    the small part of Node's `path.join` it depends on. */
module Paths {

  /** What `fs.statSync` reports a path to be, for the two answers the script
      asks about; a path that is neither is absent from the file system map. */
  datatype Kind = Dir | File

  /** An abstract file system: every path that stats successfully, with its
      kind. Anything `statSync` fails on (missing path, permission denied,
      broken link) is simply not a key. */
  type FileSystem = map<string, Kind>

  /** `_isValidPath(path, type)`: true exactly when the path stats as the kind
      asked for. The empty path never does, since `statSync('')` throws. */
  predicate IsValidPath(fs: FileSystem, path: string, kind: Kind) {
    path != "" && path in fs && fs[path] == kind
  }

  predicate IsDir(fs: FileSystem, path: string) {
    IsValidPath(fs, path, Dir)
  }

  predicate IsFile(fs: FileSystem, path: string) {
    IsValidPath(fs, path, File)
  }

  /** `path.join(base, segment)` with "/" as separator: an empty side is
      dropped, and joining two empty strings gives ".", so a join is never
      empty. Normalisation of ".." and repeated separators is not modelled. */
  function Join(base: string, segment: string): (r: string)
    ensures r != ""
    ensures base != "" && segment != "" ==> r == base + "/" + segment
    ensures base == "" ==> r == (if segment == "" then "." else segment)
    ensures segment == "" ==> r == (if base == "" then "." else base)
  {
    if base == "" && segment == "" then "."
    else if base == "" then segment
    else if segment == "" then base
    else base + "/" + segment
  }

  /** `path.join(p)` with a single argument: the empty path becomes ".". */
  function JoinSingle(p: string): (r: string)
    ensures r != ""
    ensures p != "" ==> r == p
  {
    if p == "" then "." else p
  }

  /** `path.join(base, s1, ..., sn)`, one segment at a time. */
  function JoinAll(base: string, segments: seq<string>): string {
    if segments == [] then base
    else Join(JoinAll(base, segments[..|segments| - 1]), segments[|segments| - 1])
  }

  /** The index of the first candidate that is a directory, or the number of
      candidates when there is none. */
  function FirstDirIndex(fs: FileSystem, candidates: seq<string>): (k: nat)
    ensures k <= |candidates|
    ensures k < |candidates| ==> IsDir(fs, candidates[k])
    ensures forall j :: 0 <= j < k ==> !IsDir(fs, candidates[j])
  {
    FirstDirFrom(fs, candidates, 0)
  }

  /** The index of the first candidate at or after `i` that is a directory,
      or the number of candidates. */
  function FirstDirFrom(fs: FileSystem, candidates: seq<string>, i: nat): (k: nat)
    requires i <= |candidates|
    ensures i <= k <= |candidates|
    ensures k < |candidates| ==> IsDir(fs, candidates[k])
    ensures forall j :: i <= j < k ==> !IsDir(fs, candidates[j])
    decreases |candidates| - i
  {
    if i == |candidates| || IsDir(fs, candidates[i]) then i
    else FirstDirFrom(fs, candidates, i + 1)
  }

  /** The outcome of the first-match search the script runs over a candidate
      list: the first directory, or "" when none of them is one. */
  function FirstDir(fs: FileSystem, candidates: seq<string>): (d: string)
    ensures d != "" <==> exists j :: 0 <= j < |candidates| && IsDir(fs, candidates[j])
    ensures d != "" ==> IsDir(fs, d)
    ensures d != "" ==>
      exists k :: 0 <= k < |candidates| && d == candidates[k] && forall j :: 0 <= j < k ==> !IsDir(fs, candidates[j])
  {
    var k := FirstDirIndex(fs, candidates);
    if k < |candidates| then candidates[k] else ""
  }

  /** The `for ... if (_isValidPath(c, 'd')) { ...; break; }` loops of the
      `Sass` constructor (gulpfile.js lines 182-188, 237-243, 274-280): scan
      the candidates in order and keep the first directory. */
  method FindFirstDir(fs: FileSystem, candidates: seq<string>) returns (found: string)
    ensures found == FirstDir(fs, candidates)
  {
    found := "";
    for i := 0 to |candidates|
      invariant found == ""
      invariant forall j :: 0 <= j < i ==> !IsDir(fs, candidates[j])
    {
      if IsDir(fs, candidates[i]) {
        found := candidates[i];
        break;
      }
    }
  }
}
