/**
 * UNIX-style file paths as strings: `Path.resolve` and `Path.absolute`, without
 * normalisation.
 */
module Paths {

  predicate IsAbsolute(p: string) { |p| > 0 && p[0] == '/' }

  /** `base.resolve(other)`: an absolute `other` wins, an empty one gives `base`, an
      empty `base` gives `other`; otherwise `other` is appended to `base`, with
      exactly one separator between them. */
  function Resolve(base: string, other: string): (r: string)
    ensures IsAbsolute(other) ==> r == other
    ensures other == "" ==> r == base
    ensures base == "" && !IsAbsolute(other) ==> r == other
    ensures IsAbsolute(base) ==> IsAbsolute(r)
    ensures !IsAbsolute(other) && other != "" && base != "" ==>
      && |base| + |other| <= |r|
      && r[..|base|] == base
      && r[|r| - |other|..] == other
      && (base[|base| - 1] == '/' ==> |r| == |base| + |other|)
      && (base[|base| - 1] != '/' ==> |r| == |base| + 1 + |other| && r[|base|] == '/')
  {
    if IsAbsolute(other) then other
    else if other == "" then base
    else if base == "" then other
    else if base[|base| - 1] == '/' then base + other
    else base + "/" + other
  }

  /** `path.absolute()`: an absolute path is kept; a relative one is resolved
      against the working directory. */
  function Absolute(cwd: string, p: string): (r: string)
    requires IsAbsolute(cwd)
    ensures IsAbsolute(r)
    ensures IsAbsolute(p) ==> r == p
    ensures p == "" ==> r == cwd
    ensures !IsAbsolute(p) && p != "" ==>
      && |cwd| + |p| <= |r| <= |cwd| + 1 + |p|
      && r[..|cwd|] == cwd
      && r[|r| - |p|..] == p
  {
    if IsAbsolute(p) then p else Resolve(cwd, p)
  }
}
