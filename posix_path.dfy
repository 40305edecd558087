/** The `os.path` functions (POSIX flavour) that the modelled code calls. */
module PosixPath {
  import opened Text

  predicate AllSlashes(s: string) { forall i :: 0 <= i < |s| ==> s[i] == '/' }

  function StripTrailingSlashes(s: string): (r: string)
    ensures |r| <= |s| && r == s[..|r|]
    ensures r == [] || r[|r| - 1] != '/'
  {
    if |s| > 0 && s[|s| - 1] == '/' then StripTrailingSlashes(s[..|s| - 1]) else s
  }

  /** `os.path.split(p)`: everything up to the last `/` (trailing slashes removed unless that is all there is) and the rest. */
  function SplitPath(p: string): (r: (string, string))
    ensures r.1 == AfterLast(p, '/')
    ensures '/' !in p ==> r == ("", p)
  {
    var i := LastIndexOf(p, '/') + 1;
    var head := p[..i];
    (if head != [] && !AllSlashes(head) then StripTrailingSlashes(head) else head, p[i..])
  }

  function Dirname(p: string): string { SplitPath(p).0 }

  function Basename(p: string): (r: string)
    ensures '/' !in r && EndsWith(p, r)
  {
    SplitPath(p).1
  }

  /** `os.path.splitext(p)[1]`: from the last `.` of the last component on, unless that component is only dots before it. */
  function Extension(p: string): (r: string)
    ensures r == [] || (r[0] == '.' && '/' !in r && '.' !in r[1..] && EndsWith(p, r))
  {
    var sep := LastIndexOf(p, '/');
    var dot := LastIndexOf(p, '.');
    if dot > sep && exists k :: sep + 1 <= k < dot && p[k] != '.' then
      var ext := p[dot..];
      assert forall j :: 1 <= j < |ext| ==> ext[j] == p[dot + j];
      ext
    else ""
  }

  /** `os.path.join(a, b)` */
  function JoinPath(a: string, b: string): (r: string)
    ensures StartsWith(b, "/") ==> r == b
    ensures !StartsWith(b, "/") ==> EndsWith(r, b) && StartsWith(r, a)
  {
    if StartsWith(b, "/") then b
    else if a == [] || EndsWith(a, "/") then a + b
    else a + "/" + b
  }
}
