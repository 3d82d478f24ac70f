/**
 Version parsing and comparison (apps/desktop/src/update-controller.ts), the accepted version shape
 (packages/protocol/src/app-update.ts) and the precedence of section 11 of Semantic Versioning 2.0.0.
 */
module Versions {
  import opened Wrappers
  import opened Texts
  import opened Binary64

  // ---- text ----

  predicate IsDigit(c: char) { '0' <= c <= '9' }

  predicate IsAlphanumeric(c: char) { IsDigit(c) || 'a' <= c <= 'z' || 'A' <= c <= 'Z' }

  predicate IsNumeric(s: string) { s != "" && forall i :: 0 <= i < |s| ==> IsDigit(s[i]) }

  /** The number a run of digits stands for. */
  function Value(s: string): nat {
    if s == "" then 0
    else 10 * Value(s[..|s| - 1]) + if IsDigit(s[|s| - 1]) then s[|s| - 1] as nat - '0' as nat else 0
  }

  /** Order of strings by code units, as the comparison operators of strings have it. */
  predicate Less(s: string, t: string) {
    t != "" && (s == "" || s[0] < t[0] || (s[0] == t[0] && Less(s[1..], t[1..])))
  }

  /** parseInt of a run of digits. */
  function ParseInt(s: string): nat { Nearest(Value(s)) }

  // ---- parsing ----

  datatype Parsed = Parsed(core: seq<nat>, prerelease: seq<string>)

  function Numbers(parts: seq<string>): (r: seq<nat>)
    ensures |r| == |parts|
    ensures forall i :: 0 <= i < |r| ==> r[i] == ParseInt(parts[i])
  {
    if parts == [] then [] else [ParseInt(parts[0])] + Numbers(parts[1..])
  }

  /** split("-", 2) keeps two pieces: what follows a second hyphen is dropped. */
  function Parse(v: string): Parsed {
    var pieces := Split(v, '-');
    Parsed(Numbers(Split(pieces[0], '.')), if |pieces| == 1 then [] else Split(pieces[1], '.'))
  }

  /** The shape every version must have before it is compared. */
  predicate Accepted(v: string) {
    var hyphen := IndexOf(v, '-');
    var core := Split(v[..hyphen], '.');
    && |core| == 3
    && (forall i :: 0 <= i < 3 ==> IsNumeric(core[i]) && |core[i]| <= 6)
    && (hyphen < |v| ==>
          var suffix := v[hyphen + 1..];
          && 1 <= |suffix| <= 64
          && IsAlphanumeric(suffix[0]) && IsAlphanumeric(suffix[|suffix| - 1])
          && forall i :: 0 <= i < |suffix| ==> IsAlphanumeric(suffix[i]) || suffix[i] == '.' || suffix[i] == '-')
  }

  // ---- comparison ----

  function Sign(n: int): int { if n < 0 then -1 else if n == 0 then 0 else 1 }

  function Core(core: seq<nat>, i: nat): nat { if i < |core| then core[i] else 0 }

  function CompareCores(a: seq<nat>, b: seq<nat>, from: nat): (r: int)
    requires from <= 3
    ensures -1 <= r <= 1
    decreases 3 - from
  {
    if from == 3 then 0
    else if Core(a, from) != Core(b, from) then Sign(Core(a, from) - Core(b, from))
    else CompareCores(a, b, from + 1)
  }

  /** Two different identifiers. */
  function CompareIdentifiers(x: string, y: string): (r: int)
    ensures -1 <= r <= 1
  {
    if IsNumeric(x) && IsNumeric(y) then Sign(ParseInt(x) - ParseInt(y))
    else if IsNumeric(x) != IsNumeric(y) then (if IsNumeric(x) then -1 else 1)
    else if Less(x, y) then -1 else 1
  }

  function ComparePrereleases(p: seq<string>, q: seq<string>): (r: int)
    ensures -1 <= r <= 1
  {
    if p == [] then (if q == [] then 0 else -1)
    else if q == [] then 1
    else if p[0] == q[0] then ComparePrereleases(p[1..], q[1..])
    else CompareIdentifiers(p[0], q[0])
  }

  function Compare(a: Parsed, b: Parsed): (r: int)
    ensures -1 <= r <= 1
  {
    var cores := CompareCores(a.core, b.core, 0);
    if cores != 0 then cores
    else if a.prerelease == [] || b.prerelease == [] then
      (if |a.prerelease| == |b.prerelease| then 0 else if a.prerelease == [] then 1 else -1)
    else ComparePrereleases(a.prerelease, b.prerelease)
  }

  /** compareVersions with its two loops; a version of another shape makes it throw. */
  method CompareVersions(left: string, right: string) returns (r: Option<int>)
    ensures r == if Accepted(left) && Accepted(right) then Some(Compare(Parse(left), Parse(right))) else None
  {
    if !Accepted(left) || !Accepted(right) { return None; }
    var a, b := Parse(left), Parse(right);
    var index := 0;
    while index < 3
      invariant 0 <= index <= 3 && CompareCores(a.core, b.core, 0) == CompareCores(a.core, b.core, index)
    {
      var difference := Core(a.core, index) - Core(b.core, index);
      if difference != 0 { return Some(Sign(difference)); }
      index := index + 1;
    }
    var p, q := a.prerelease, b.prerelease;
    if p == [] || q == [] { return Some(if |p| == |q| then 0 else if p == [] then 1 else -1); }
    var length := if |p| < |q| then |q| else |p|;
    index := 0;
    while index < length
      invariant 0 <= index <= |p| && index <= |q|
      invariant ComparePrereleases(p, q) == ComparePrereleases(p[index..], q[index..])
    {
      if index == |p| { return Some(-1); }
      if index == |q| { return Some(1); }
      assert p[index..][1..] == p[index + 1..] && q[index..][1..] == q[index + 1..];
      if p[index] != q[index] { return Some(CompareIdentifiers(p[index], q[index])); }
      index := index + 1;
    }
    r := Some(0);
  }
}
