/**
  The handful of JavaScript string behaviours the page script relies on,
  stated over Dafny strings (`seq<char>`):
  - `Option` for values that may be `null` (a missing header, a missing form
    field, a missing JSON property);
  - `OrElse` for the `a || b` idiom, where the empty string is falsy;
  - `Includes` and `StartsWith` for `String.prototype.includes`/`startsWith`;
  - `Split` and `Join` for `String.prototype.split`/`Array.prototype.join`
    with a one-character separator.
 */
module JsText {

  /** A value that may be `null` in the script. */
  datatype Option<+T> = None | Some(value: T)

  /** `a || b` on strings: an empty string is falsy, so it yields `b`. */
  function OrElse(a: string, b: string): (r: string)
    ensures a != "" ==> r == a
    ensures a == "" ==> r == b
  {
    if a != "" then a else b
  }

  /** `a || b` where `a` may be `null`: `null` and `""` both yield `b`. */
  function OrElseOpt(a: Option<string>, b: string): (r: string)
    ensures a.Some? && a.value != "" ==> r == a.value
    ensures a.None? || a.value == "" ==> r == b
  {
    match a
    case None => b
    case Some(v) => OrElse(v, b)
  }

  /** `s.startsWith(p)`. */
  predicate StartsWith(s: string, p: string)
  {
    |p| <= |s| && s[..|p|] == p
  }

  /** `s.includes(sub)`: `sub` occurs in `s` at some offset. */
  predicate Includes(s: string, sub: string)
  {
    exists i :: 0 <= i <= |s| && StartsWith(s[i..], sub)
  }

  /** Occurrence is transitive: whatever occurs in a part of `s` occurs in `s`. */
  lemma IncludesTransitive(s: string, mid: string, sub: string)
    requires Includes(s, mid)
    requires Includes(mid, sub)
    ensures Includes(s, sub)
  {
    var i :| 0 <= i <= |s| && StartsWith(s[i..], mid);
    var j :| 0 <= j <= |mid| && StartsWith(mid[j..], sub);
    assert s[i..][..|mid|] == mid;
    assert mid[j..][..|sub|] == sub;
    assert s[i + j..][..|sub|] == sub by {
      forall k | 0 <= k < |sub|
        ensures s[i + j..][k] == sub[k]
      {
        assert s[i + j..][k] == s[i..][..|mid|][j + k];
        assert mid[j..][..|sub|][k] == mid[j + k];
      }
    }
    assert StartsWith(s[i + j..], sub);
  }

  /** Two strings whose first characters differ have no common prefix. */
  lemma DistinctHeads(s: string, p: string, q: string)
    requires StartsWith(s, p) && |p| > 0
    requires |q| > 0 && q[0] != p[0]
    ensures !StartsWith(s, q)
  {
  }

  /** The position of the last `sep` in `s`. */
  function LastIndex(s: string, sep: char): (k: nat)
    requires sep in s
    ensures k < |s| && s[k] == sep
    ensures sep !in s[k + 1..]
  {
    if s[|s| - 1] == sep then |s| - 1
    else
      assert s == s[..|s| - 1] + [s[|s| - 1]];
      LastIndex(s[..|s| - 1], sep)
  }

  /** The last separator is the only one with no separator after it. */
  lemma LastIndexUnique(s: string, sep: char, k: nat)
    requires k < |s| && s[k] == sep && sep !in s[k + 1..]
    ensures LastIndex(s, sep) == k
  {
  }

  /**
    `s.split(sep)`: the maximal runs between separators, in order. There is
    always at least one part, and no part contains the separator.
   */
  function Split(s: string, sep: char): (parts: seq<string>)
    ensures |parts| >= 1
    ensures forall i :: 0 <= i < |parts| ==> sep !in parts[i]
    ensures sep !in s ==> parts == [s]
    decreases |s|
  {
    if sep !in s then [s]
    else
      var k := LastIndex(s, sep);
      Split(s[..k], sep) + [s[k + 1..]]
  }

  /** `parts.join(sep)`. */
  function Join(parts: seq<string>, sep: char): string
    requires |parts| >= 1
  {
    if |parts| == 1 then parts[0]
    else Join(parts[..|parts| - 1], sep) + [sep] + parts[|parts| - 1]
  }

  /** The last element of a non-empty sequence (`Array.prototype.pop`'s result). */
  function Last<T>(xs: seq<T>): T
    requires |xs| >= 1
  {
    xs[|xs| - 1]
  }

  /** Joining the parts of a split gives back the string. */
  lemma {:induction false} JoinSplit(s: string, sep: char)
    ensures Join(Split(s, sep), sep) == s
    decreases |s|
  {
    if sep in s {
      var k := LastIndex(s, sep);
      JoinSplit(s[..k], sep);
      var front := Split(s[..k], sep);
      assert Split(s, sep)[..|Split(s, sep)| - 1] == front;
      assert s == s[..k] + [sep] + s[k + 1..];
    }
  }

  /** Splitting a join of separator-free parts gives back the parts. */
  lemma {:induction false} SplitJoin(parts: seq<string>, sep: char)
    requires |parts| >= 1
    requires forall i :: 0 <= i < |parts| ==> sep !in parts[i]
    ensures Split(Join(parts, sep), sep) == parts
    decreases |parts|
  {
    if |parts| > 1 {
      var front := parts[..|parts| - 1];
      var tail := parts[|parts| - 1];
      SplitJoin(front, sep);
      var j := Join(front, sep);
      var s := Join(parts, sep);
      assert s == j + [sep] + tail;
      assert s[|j|] == sep;
      assert s[|j| + 1..] == tail;
      LastIndexUnique(s, sep, |j|);
      assert s[..|j|] == j;
      assert parts == front + [tail];
    }
  }
}
