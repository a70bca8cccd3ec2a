/** Path strings: `path.join`, `path.dirname` and the anchored suffix
    replacements `s.replace(/\.ext$/, …)` the builder applies to file names. */
module Paths {

  import opened Wrappers

  predicate EndsWith(s: string, suffix: string) {
    |suffix| <= |s| && s[|s| - |suffix|..] == suffix
  }

  /** `s` without `suffix`; putting the suffix back gives `s` again. */
  function StripSuffix(s: string, suffix: string): (r: string)
    requires EndsWith(s, suffix)
    ensures r + suffix == s
  {
    s[..|s| - |suffix|]
  }

  /** `s.replace(/<suffix>$/, repl)`: the suffix is replaced only at the very end. */
  function ReplaceSuffix(s: string, suffix: string, repl: string): string {
    if EndsWith(s, suffix) then StripSuffix(s, suffix) + repl else s
  }

  /** `path.join(a, b)` for a relative `b`, without normalisation. */
  function Join(a: string, b: string): string {
    a + "/" + b
  }

  /** Index of the last '/' in `p`, if there is one. */
  function LastSlash(p: string): (r: Option<nat>)
    ensures r.None? <==> '/' !in p
    ensures r.Some? ==> r.value < |p| && p[r.value] == '/' && '/' !in p[r.value + 1..]
  {
    if |p| == 0 then None
    else if p[|p| - 1] == '/' then Some(|p| - 1)
    else
      var r := LastSlash(p[..|p| - 1]);
      assert p == p[..|p| - 1] + [p[|p| - 1]];
      r
  }

  /** The length of `p` once the trailing '/'s after its first character are
      dropped, as `path.dirname` skips them before looking for a separator. */
  function TrimmedLength(p: string): (n: nat)
    ensures n <= |p| && (|p| > 0 ==> n >= 1)
    ensures n >= 2 ==> p[n - 1] != '/'
    ensures forall k :: n <= k < |p| ==> p[k] == '/'
    decreases |p|
  {
    if |p| <= 1 then |p|
    else if p[|p| - 1] == '/' then TrimmedLength(p[..|p| - 1])
    else |p|
  }

  /** `path.dirname(p)` on POSIX: trailing '/'s are ignored, then everything
      before the last '/' is kept; "/" when that '/' is the leading one (and "//"
      for a path opening with two), and "." when there is none. */
  function Dirname(p: string): (d: string)
    ensures '/' !in p ==> d == "."
    ensures d == "." || (0 < |d| <= |p| && d == p[..|d|])
  {
    if |p| == 0 then "."
    else
      var hasRoot := p[0] == '/';
      var n := TrimmedLength(p);
      var last := LastSlash(p[..n]);
      if last.Some? && last.value >= 1 then
        if hasRoot && last.value == 1 then
          assert p[..2] == [p[0], p[..n][1]];
          "//"
        else p[..last.value]
      else if hasRoot then "/"
      else "."
  }

  /** For a path that does not end in '/', the directory is what comes before
      its last '/': "/" when that is the leading one, and "//" when the path
      opens with two. */
  lemma DirnameAtLastSlash(p: string, i: nat)
    requires i < |p| - 1 && p[i] == '/' && '/' !in p[i + 1..]
    ensures Dirname(p) == if i == 0 then "/" else if i == 1 && p[0] == '/' then "//" else p[..i]
  {
    assert p[|p| - 1] == p[i + 1..][|p| - 2 - i];
    assert TrimmedLength(p) == |p|;
    assert p[..|p|] == p;
    var last := LastSlash(p);
    assert last.Some? by {
      assert p[i] == '/';
    }
  }

  /** The directories `mkdirSync(d, {recursive: true})` creates: `d` and every
      ancestor up to the root. */
  function DirChain(d: string): (ds: set<string>)
    decreases |d|
    ensures d in ds
  {
    var parent := Dirname(d);
    if parent != "." && |parent| < |d| then {d} + DirChain(parent) else {d}
  }

  /** `path.join(a, b)` ends with `suffix` exactly when `b` does, for any suffix
      free of '/': the anchored replacements act on the file name alone. */
  lemma {:induction false} JoinEndsWith(a: string, b: string, suffix: string)
    requires '/' !in suffix
    ensures EndsWith(Join(a, b), suffix) <==> EndsWith(b, suffix)
    ensures EndsWith(b, suffix) ==> StripSuffix(Join(a, b), suffix) == Join(a, StripSuffix(b, suffix))
  {
    var j := Join(a, b);
    assert j[|a| + 1..] == b;
    if |b| < |suffix| <= |j| {
      // the joining '/' falls inside the tail that would have to equal `suffix`
      var k := |suffix| - |b| - 1;
      assert j[|j| - |suffix|..][k] == j[|a|] == '/';
      assert suffix[k] != '/';
    }
    if EndsWith(b, suffix) {
      assert j[|j| - |suffix|..] == b[|b| - |suffix|..];
    }
    if EndsWith(j, suffix) {
      assert j[|j| - |suffix|..] == b[|b| - |suffix|..];
    }
  }
}
