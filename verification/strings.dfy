/** The few Python `str` operations the script relies on, over `seq<char>`:
    `s.split(sep)` with an explicit one-character separator, `sep.join(parts)`,
    the slice `s[:n]` and `s.endswith(suffix)`. */
module Strings {

  /** Python's `sep.join(parts)`: the parts with `sep` between neighbours. */
  function Join(sep: string, parts: seq<string>): string
  {
    if |parts| == 0 then ""
    else if |parts| == 1 then parts[0]
    else parts[0] + sep + Join(sep, parts[1..])
  }

  /** Python's `s.split(c)` for a one-character separator `c`: the maximal
      pieces between occurrences of `c`; an empty string gives `[""]`. Its
      meaning is stated by `SplitJoin`. */
  function SplitOn(s: string, c: char): (r: seq<string>)
    ensures |r| >= 1
  {
    if |s| == 0 then [""]
    else
      var t := SplitOn(s[1..], c);
      if s[0] == c then [""] + t else [[s[0]] + t[0]] + t[1..]
  }

  /** Joining the pieces of a split with the separator gives the string back,
      no piece holds the separator, and there is more than one piece exactly
      when the separator occurs. */
  lemma {:induction false} SplitJoin(s: string, c: char)
    ensures Join([c], SplitOn(s, c)) == s
    ensures forall i :: 0 <= i < |SplitOn(s, c)| ==> c !in SplitOn(s, c)[i]
    ensures |SplitOn(s, c)| == 1 <==> c !in s
  {
    if |s| > 0 {
      var t := SplitOn(s[1..], c);
      SplitJoin(s[1..], c);
      assert s == [s[0]] + s[1..];
      if s[0] != c {
        JoinExtendHead([c], s[0], t[0], t[1..]);
        assert [t[0]] + t[1..] == t;
      }
    }
  }

  /** Prepending a character to the first part prepends it to the join. */
  lemma JoinExtendHead(sep: string, x: char, p: string, ps: seq<string>)
    ensures Join(sep, [[x] + p] + ps) == [x] + Join(sep, [p] + ps)
  {
    if |ps| > 0 {
      assert ([[x] + p] + ps)[1..] == ps;
      assert ([p] + ps)[1..] == ps;
    }
  }

  /** `s` with every `c` replaced by `d`; all other characters unchanged. */
  function ReplaceChar(s: string, c: char, d: char): (r: string)
    ensures |r| == |s|
    ensures forall i :: 0 <= i < |s| ==> r[i] == (if s[i] == c then d else s[i])
  {
    seq(|s|, i requires 0 <= i < |s| => if s[i] == c then d else s[i])
  }

  /** Joining pieces free of `c` with `d` is the same as joining them with `c`
      and then replacing every `c` by `d`. */
  lemma {:induction false} JoinReplace(parts: seq<string>, c: char, d: char)
    requires forall i :: 0 <= i < |parts| ==> c !in parts[i]
    ensures Join([d], parts) == ReplaceChar(Join([c], parts), c, d)
  {
    if |parts| == 0 {
    } else if |parts| == 1 {
      assert ReplaceChar(parts[0], c, d) == parts[0];
    } else {
      var rest := parts[1..];
      JoinReplace(rest, c, d);
      var a, b := parts[0], Join([c], rest);
      assert ReplaceChar(a, c, d) == a;
      assert ReplaceChar(a + [c] + b, c, d) == a + [d] + ReplaceChar(b, c, d);
    }
  }

  /** `[d].join(s.split(c))` replaces every occurrence of `c` in `s` by `d`. */
  lemma SplitJoinReplaces(s: string, c: char, d: char)
    ensures Join([d], SplitOn(s, c)) == ReplaceChar(s, c, d)
  {
    SplitJoin(s, c);
    JoinReplace(SplitOn(s, c), c, d);
  }

  /** A split on `c` of a string whose first `c` follows the prefix `a`: the
      first piece is `a`. */
  lemma {:induction false} SplitAfterPrefix(a: string, c: char, b: string)
    requires c !in a
    ensures SplitOn(a + [c] + b, c) == [a] + SplitOn(b, c)
  {
    var s := a + [c] + b;
    if |a| == 0 {
      assert s[1..] == b;
    } else {
      assert s[1..] == a[1..] + [c] + b;
      SplitAfterPrefix(a[1..], c, b);
      assert [a[0]] + a[1..] == a;
    }
  }

  /** A string without `c` splits into itself alone. */
  lemma SplitWithout(s: string, c: char)
    requires c !in s
    ensures SplitOn(s, c) == [s]
  {
    SplitJoin(s, c);
  }

  /** Python's slice `s[:n]` for `n >= 0`: the whole string when it is shorter. */
  function Prefix(s: string, n: nat): (r: string)
    ensures |r| == if |s| < n then |s| else n
    ensures r <= s
  {
    if |s| < n then s else s[..n]
  }

  /** Python's `s.endswith(suffix)`. */
  predicate EndsWith(s: string, suffix: string)
  {
    |suffix| <= |s| && s[|s| - |suffix|..] == suffix
  }
}
