/** Text helpers: searching, joining (as JavaScript's `Array.prototype.join`)
    and its inverse, splitting at a separator. */
module Text {

  /** The index of the first `c` in `s`, or `|s|` when there is none. */
  function IndexOf(s: string, c: char): (i: nat)
    ensures i <= |s|
    ensures i < |s| ==> s[i] == c
    ensures forall k :: 0 <= k < i ==> s[k] != c
  {
    if |s| == 0 then 0
    else if s[0] == c then 0
    else 1 + IndexOf(s[1..], c)
  }

  /** `sep` occurs in `s` starting at index `k`. */
  predicate OccursAt(s: string, sep: string, k: nat) {
    k + |sep| <= |s| && s[k..k + |sep|] == sep
  }

  /** The index of the first occurrence of `sep` in `s`, or `|s|` when there is none. */
  function Find(s: string, sep: string): (i: nat)
    requires |sep| > 0
    ensures i <= |s|
    ensures i < |s| ==> OccursAt(s, sep, i)
    ensures forall k :: 0 <= k < i ==> !OccursAt(s, sep, k)
    decreases |s|
  {
    if |s| < |sep| then |s|
    else if s[..|sep|] == sep then 0
    else
      var j := Find(s[1..], sep);
      assert forall k :: 1 <= k <= j ==> (OccursAt(s, sep, k) <==> OccursAt(s[1..], sep, k - 1));
      1 + j
  }

  /** JavaScript's `parts.join(sep)`: the parts in order, `sep` between neighbours. */
  function Join(parts: seq<string>, sep: string): string {
    if |parts| == 0 then ""
    else if |parts| == 1 then parts[0]
    else parts[0] + sep + Join(parts[1..], sep)
  }

  /** Cuts `s` at every occurrence of `sep`, left to right; the inverse of `Join`. */
  function Split(s: string, sep: string): (r: seq<string>)
    requires |sep| > 0
    ensures |r| > 0
    decreases |s|
  {
    var i := Find(s, sep);
    if i == |s| then [s]
    else [s[..i]] + Split(s[i + |sep|..], sep)
  }

  /** Joining non-empty parts is empty exactly when there are no parts. */
  lemma {:induction false} JoinEmpty(parts: seq<string>, sep: string)
    requires forall i :: 0 <= i < |parts| ==> |parts[i]| > 0
    ensures Join(parts, sep) == "" <==> |parts| == 0
  {
    if |parts| > 1 {
      assert |Join(parts, sep)| >= |parts[0]|;
    }
  }

  /** A character that is in no part and not in the separator is not in the joined text. */
  lemma {:induction false} JoinExcludes(parts: seq<string>, sep: string, c: char)
    requires c !in sep
    requires forall i :: 0 <= i < |parts| ==> c !in parts[i]
    ensures c !in Join(parts, sep)
  {
    if |parts| > 1 {
      JoinExcludes(parts[1..], sep, c);
    }
  }

  /** When the separator's first character appears in no part, splitting undoes joining. */
  lemma {:induction false} SplitJoin(parts: seq<string>, sep: string)
    requires |sep| > 0 && |parts| > 0
    requires forall i :: 0 <= i < |parts| ==> sep[0] !in parts[i]
    ensures Split(Join(parts, sep), sep) == parts
  {
    if |parts| == 1 {
      FindAbsent(parts[0], sep);
    } else {
      var rest := Join(parts[1..], sep);
      assert Join(parts, sep) == parts[0] + sep + rest;
      SplitAfterFirst(parts[0], sep, rest);
      SplitJoin(parts[1..], sep);
      assert [parts[0]] + parts[1..] == parts;
    }
  }

  /** Splitting cuts first at the separator that follows a piece lacking its first
      character. */
  lemma SplitAfterFirst(p: string, sep: string, rest: string)
    requires |sep| > 0 && sep[0] !in p
    ensures Split(p + sep + rest, sep) == [p] + Split(rest, sep)
  {
    var s := p + sep + rest;
    assert s == p + (sep + rest);
    FindFirst(p, sep, sep + rest);
    SliceAtSeam(p, sep + rest);
    SliceAtSeam(sep, rest);
    assert s[|p| + |sep|..] == rest;
  }

  /** `sep` cannot occur where its first character does not. */
  lemma FindAbsent(p: string, sep: string)
    requires |sep| > 0 && sep[0] !in p
    ensures Find(p, sep) == |p|
  {
  }

  /** The first occurrence of `sep` in `p + t` is where `t` starts, when `t` starts with `sep`
      and `p` lacks its first character. */
  lemma FindFirst(p: string, sep: string, t: string)
    requires |sep| > 0 && sep[0] !in p && sep <= t
    ensures Find(p + t, sep) == |p|
  {
    var s := p + t;
    assert s[|p|..|p| + |sep|] == sep;
    assert OccursAt(s, sep, |p|);
  }

  /** The characters a C++ identifier of the generated header is written with. */
  predicate IsIdentifierChar(c: char) {
    ('a' <= c <= 'z') || ('A' <= c <= 'Z') || ('0' <= c <= '9') || c == '_'
  }

  /** A non-empty identifier: module, method and parameter names are substituted as such. */
  predicate IsIdentifier(s: string) {
    |s| > 0 && forall k :: 0 <= k < |s| ==> IsIdentifierChar(s[k])
  }

  /** An identifier holds none of the punctuation that delimits generated declarations. */
  lemma IdentifierLacks(s: string, c: char)
    requires IsIdentifier(s) && !IsIdentifierChar(c)
    ensures c !in s
  {
  }

  /** The first `c` of `a + [c] + b` is the one after `a` when `a` has none. */
  lemma IndexOfAt(a: string, c: char, b: string)
    requires c !in a
    ensures IndexOf(a + [c] + b, c) == |a|
  {
    var s := a + [c] + b;
    var i := IndexOf(s, c);
    assert s[|a|] == c;
    assert forall k :: 0 <= k < |a| ==> s[k] == a[k] && a[k] != c;
  }

  /** Slicing a concatenation at the seam gives back its two halves. */
  lemma SliceAtSeam(a: string, b: string)
    ensures (a + b)[..|a|] == a && (a + b)[|a|..] == b
  {
  }
}
