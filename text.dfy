/** Case-insensitive substring search, as the title filters of the list
    handler use it (PostgreSQL's ILIKE and Prisma's `contains` with
    `mode: 'insensitive'`). Case folding is ASCII only. */
module Text {

  function LowerChar(c: char): char {
    if 'A' <= c <= 'Z' then (c as int - 'A' as int + 'a' as int) as char else c
  }

  function Lower(s: string): (r: string)
    ensures |r| == |s|
    ensures forall i :: 0 <= i < |s| ==> r[i] == LowerChar(s[i])
  {
    if s == [] then [] else [LowerChar(s[0])] + Lower(s[1..])
  }

  predicate StartsWith(s: string, prefix: string) {
    |prefix| <= |s| && s[..|prefix|] == prefix
  }

  /** `part` occurs somewhere in `s`. */
  predicate Contains(s: string, part: string)
    decreases |s|
  {
    StartsWith(s, part) || (s != [] && Contains(s[1..], part))
  }

  /** `part` occurs somewhere in `s` once both are lower-cased. */
  predicate ContainsIgnoringCase(s: string, part: string)
    ensures ContainsIgnoringCase(s, part) <==>
      exists i :: 0 <= i <= |s| && StartsWith(Lower(s)[i..], Lower(part))
  {
    ContainsAt(Lower(s), Lower(part));
    assert |Lower(s)| == |s|;
    Contains(Lower(s), Lower(part))
  }

  /** Contains agrees with the positional definition of a substring. */
  lemma {:induction false} ContainsAt(s: string, part: string)
    ensures Contains(s, part) <==> exists i :: 0 <= i <= |s| && StartsWith(s[i..], part)
    decreases |s|
  {
    assert s[0..] == s;
    if s != [] {
      ContainsAt(s[1..], part);
      if Contains(s[1..], part) {
        var i :| 0 <= i <= |s[1..]| && StartsWith(s[1..][i..], part);
        assert s[1..][i..] == s[i + 1..];
      }
      if exists i :: 0 <= i <= |s| && StartsWith(s[i..], part) {
        var i :| 0 <= i <= |s| && StartsWith(s[i..], part);
        if i > 0 {
          assert s[1..][i - 1..] == s[i..];
        }
      }
    }
  }

  /** A string ends with what was appended to it. */
  lemma {:induction false} ContainsSuffix(prefix: string, part: string)
    ensures Contains(prefix + part, part)
    decreases |prefix|
  {
    if prefix == [] {
      assert (prefix + part)[..|part|] == part;
    } else {
      ContainsSuffix(prefix[1..], part);
      assert (prefix + part)[1..] == prefix[1..] + part;
    }
  }
}
