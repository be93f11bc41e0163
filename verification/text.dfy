/** Small string and sequence vocabulary shared by the chunker, the context
    assembler and the echo stripper. */
module Text {

  function Min(a: int, b: int): int {
    if a <= b then a else b
  }

  /** Python's `s.startswith(p)`. */
  predicate StartsWith(s: string, p: string) {
    |p| <= |s| && s[..|p|] == p
  }

  /** `part` occurs somewhere inside `s`. */
  predicate IsInfix(part: string, s: string) {
    exists i :: 0 <= i <= |s| && StartsWith(s[i..], part)
  }

  /** Sum of the lengths of the strings in `parts`. */
  function TotalLength(parts: seq<string>): nat {
    if |parts| == 0 then 0 else |parts[0]| + TotalLength(parts[1..])
  }

  lemma {:induction false} TotalLengthAppend(parts: seq<string>, more: seq<string>)
    ensures TotalLength(parts + more) == TotalLength(parts) + TotalLength(more)
  {
    if |parts| == 0 {
      assert parts + more == more;
    } else {
      assert (parts + more)[1..] == parts[1..] + more;
      TotalLengthAppend(parts[1..], more);
    }
  }

  /** Python's `sep.join(parts)`: the separator goes between neighbours only. */
  function Join(parts: seq<string>, sep: string): (r: string)
    ensures |parts| == 0 ==> r == ""
    ensures |parts| > 0 ==> |r| == TotalLength(parts) + |sep| * (|parts| - 1)
    ensures |parts| > 0 ==> StartsWith(r, parts[0])
  {
    if |parts| == 0 then ""
    else if |parts| == 1 then parts[0]
    else parts[0] + sep + Join(parts[1..], sep)
  }

  /** Joining one more part appends the separator and that part, so the parts
      appear in order, one separator apart. */
  lemma {:induction false} JoinAppend(parts: seq<string>, p: string, sep: string)
    requires |parts| > 0
    ensures Join(parts + [p], sep) == Join(parts, sep) + sep + p
  {
    var all := parts + [p];
    assert all[0] == parts[0];
    if |parts| == 1 {
      assert all[1..] == [p];
    } else {
      assert all[1..] == parts[1..] + [p];
      JoinAppend(parts[1..], p, sep);
    }
  }

  /** A prefix of the middle piece, after the first piece, is a prefix of the whole. */
  lemma StartsWithInside(a: string, b: string, c: string, p: string)
    requires StartsWith(b, p)
    ensures StartsWith(a + b + c, a + p)
  {
    assert (a + b + c)[..|a + p|] == a + b[..|p|];
  }

  /** A slice of `s` is an infix of `s`. */
  lemma SliceIsInfix(s: string, i: nat, j: nat)
    requires i <= j <= |s|
    ensures IsInfix(s[i..j], s)
  {
    assert s[i..][..j - i] == s[i..j];
  }

  /** An infix of a suffix is an infix of the whole. */
  lemma InfixOfSuffix(part: string, s: string, k: nat)
    requires k <= |s| && IsInfix(part, s[k..])
    ensures IsInfix(part, s)
  {
    var i :| 0 <= i <= |s[k..]| && StartsWith(s[k..][i..], part);
    assert s[k..][i..] == s[k + i..];
  }
}
