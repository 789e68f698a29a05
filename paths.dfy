/**
 * The slash-separated path and string helpers the backend calls: Go's `path.Ext`,
 * `path.Join`, `strings.EqualFold`, `strings.Contains`, and the directory cache's `SplitPath`.
 */
module Paths {

  /** The index of the last '/' in p, or -1 when there is none. */
  function LastSlash(p: string): (i: int)
    ensures -1 <= i < |p|
    ensures i >= 0 ==> p[i] == '/'
    ensures forall j :: i < j < |p| ==> p[j] != '/'
    decreases |p|
  {
    if p == [] then -1
    else if p[|p| - 1] == '/' then |p| - 1
    else LastSlash(p[..|p| - 1])
  }

  /**
   * path.Ext: the suffix of p that starts at the last '.' of its final slash-separated
   * element, or "" when that element has no '.'.
   */
  function Ext(p: string): (e: string)
    ensures e != [] ==> |e| <= |p| && p[|p| - |e|..] == e && e[0] == '.'
    ensures e != [] ==> forall k :: 0 < k < |e| ==> e[k] != '.' && e[k] != '/'
    ensures e == [] ==> forall k :: LastSlash(p) < k < |p| ==> p[k] != '.'
    decreases |p|
  {
    if p == [] then ""
    else
      var c := p[|p| - 1];
      if c == '/' then ""
      else if c == '.' then "."
      else
        var e := Ext(p[..|p| - 1]);
        if e == "" then "" else e + [c]
  }

  /**
   * path.Join of two elements. Go cleans the joined path as well; cleaning is not modelled,
   * but Go's rule that the result is empty exactly when every element is empty is kept.
   */
  function Join(dir: string, name: string): (r: string)
    ensures r == "" <==> dir == "" && name == ""
    ensures dir != "" && name != "" ==> r == dir + "/" + name
  {
    if dir == "" then name else if name == "" then dir else dir + "/" + name
  }

  datatype Split = Split(directory: string, leaf: string)

  /** The directory cache's SplitPath: everything before and after the last '/'. */
  function SplitPath(p: string): (r: Split)
    ensures '/' !in r.leaf
    ensures LastSlash(p) < 0 ==> r == Split("", p)
    ensures LastSlash(p) >= 0 ==> p == r.directory + "/" + r.leaf
  {
    var i := LastSlash(p);
    if i < 0 then Split("", p)
    else
      assert p == p[..i] + "/" + p[i + 1..];
      Split(p[..i], p[i + 1..])
  }

  /** ASCII upper case to lower case; other characters unchanged. */
  function Lower(c: char): char
  {
    if 'A' <= c <= 'Z' then (c as int - 'A' as int + 'a' as int) as char else c
  }

  /** strings.EqualFold restricted to ASCII case folding. */
  predicate EqualFold(a: string, b: string)
  {
    |a| == |b| && forall i :: 0 <= i < |a| ==> Lower(a[i]) == Lower(b[i])
  }

  /** Case-insensitive equality is an equivalence that only ignores ASCII case. */
  lemma EqualFoldEquivalence(a: string, b: string, c: string)
    ensures EqualFold(a, a)
    ensures EqualFold(a, b) ==> EqualFold(b, a)
    ensures EqualFold(a, b) && EqualFold(b, c) ==> EqualFold(a, c)
  {
  }

  /** sub occurs in s starting at index i. */
  predicate OccursAt(s: string, sub: string, i: int)
  {
    0 <= i <= |s| - |sub| && s[i..i + |sub|] == sub
  }

  /** strings.Contains. */
  predicate Contains(s: string, sub: string)
  {
    exists i :: 0 <= i <= |s| - |sub| && OccursAt(s, sub, i)
  }

  /** strings.HasPrefix. */
  predicate HasPrefix(s: string, prefix: string)
  {
    |prefix| <= |s| && s[..|prefix|] == prefix
  }
}
