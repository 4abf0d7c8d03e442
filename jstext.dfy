/** The JavaScript string operations the server relies on, over sequences:
    `indexOf`, `lastIndexOf`, `includes`, `startsWith`, `split`, `join`,
    `substring`, and a scanner for the two regular expressions of the form
    `key([^c]+)` and `key([^c]+)c` that the multipart parser uses. */
module JsText {
  import opened Wrappers

  /** `pat` occurs in `s` starting at position `i`. */
  predicate MatchesAt<T(==)>(s: seq<T>, pat: seq<T>, i: int)
  {
    0 <= i && i + |pat| <= |s| && s[i..i + |pat|] == pat
  }

  /** `s.indexOf(pat, from)`: the first occurrence at or after `from`, or -1. */
  function IndexOf<T(==)>(s: seq<T>, pat: seq<T>, from: nat): (r: int)
    ensures r == -1 || (from <= r && MatchesAt(s, pat, r))
    ensures forall i :: from <= i && (r == -1 || i < r) ==> !MatchesAt(s, pat, i)
    decreases |s| - from
  {
    if from + |pat| > |s| then -1
    else if s[from..from + |pat|] == pat then from
    else IndexOf(s, pat, from + 1)
  }

  /** The last occurrence at or before `i`, or -1. */
  function LastIndexAtOrBefore<T(==)>(s: seq<T>, pat: seq<T>, i: int): (r: int)
    ensures r == -1 || (0 <= r <= i && MatchesAt(s, pat, r))
    ensures forall j :: r < j <= i ==> !MatchesAt(s, pat, j)
    decreases i + 1
  {
    if i < 0 then -1
    else if MatchesAt(s, pat, i) then i
    else LastIndexAtOrBefore(s, pat, i - 1)
  }

  /** `s.lastIndexOf(pat)`: the last occurrence, or -1. */
  function LastIndexOf<T(==)>(s: seq<T>, pat: seq<T>): (r: int)
    ensures r == -1 || MatchesAt(s, pat, r)
    ensures forall j :: r < j ==> !MatchesAt(s, pat, j)
  {
    LastIndexAtOrBefore(s, pat, |s| - |pat|)
  }

  /** `s.includes(pat)` */
  function Includes<T(==)>(s: seq<T>, pat: seq<T>): (r: bool)
    ensures r <==> exists i :: MatchesAt(s, pat, i)
  {
    IndexOf(s, pat, 0) != -1
  }

  /** `s.startsWith(prefix)` */
  predicate StartsWith<T(==)>(s: seq<T>, prefix: seq<T>): (b: bool)
    ensures b <==> |prefix| <= |s| && s[..|prefix|] == prefix
  {
    MatchesAt(s, prefix, 0)
  }

  /** `parts.join(sep)` */
  function Join<T>(parts: seq<seq<T>>, sep: seq<T>): (r: seq<T>)
    ensures |parts| > 0 ==> |r| == TotalLength(parts) + (|parts| - 1) * |sep|
    decreases |parts|
  {
    if |parts| == 0 then []
    else if |parts| == 1 then parts[0]
    else parts[0] + sep + Join(parts[1..], sep)
  }

  /** The summed lengths of the parts. */
  function TotalLength<T>(parts: seq<seq<T>>): nat
  {
    if |parts| == 0 then 0 else |parts[0]| + TotalLength(parts[1..])
  }

  /** `s.split(sep)` for a non-empty separator: the pieces between the
      leftmost non-overlapping occurrences of `sep`. Joining the pieces with
      `sep` gives back `s`, no piece contains `sep`, and each cut is at the
      leftmost occurrence: no piece but the last, extended by all but the
      last element of `sep`, contains `sep`. */
  function Split<T(==)>(s: seq<T>, sep: seq<T>): (parts: seq<seq<T>>)
    requires |sep| > 0
    ensures |parts| >= 1
    ensures Join(parts, sep) == s
    ensures forall k :: 0 <= k < |parts| ==> !Includes(parts[k], sep)
    ensures forall k :: 0 <= k < |parts| - 1 ==> !Includes(parts[k] + sep[..|sep| - 1], sep)
    decreases |s|
  {
    var j := IndexOf(s, sep, 0);
    if j == -1 then
      [s]
    else
      NoMatchBeforeFirst(s, sep, j);
      var reach := j + |sep| - 1;
      var pre := s[..reach];
      assert s[..j] + sep[..|sep| - 1] == pre;
      forall i | MatchesAt(pre, sep, i)
        ensures false
      {
        assert pre == s[0..reach];
        MatchInSlice(s, sep, 0, reach, i);
      }
      var rest := Split(s[j + |sep|..], sep);
      assert ([s[..j]] + rest)[1..] == rest;
      assert s == s[..j] + sep + s[j + |sep|..] by {
        assert s[j..j + |sep|] == sep;
        assert s == s[..j] + s[j..j + |sep|] + s[j + |sep|..];
      }
      [s[..j]] + rest
  }

  lemma NoMatchBeforeFirst<T>(s: seq<T>, sep: seq<T>, j: nat)
    requires j <= |s| && |sep| > 0
    requires forall i :: 0 <= i < j ==> !MatchesAt(s, sep, i)
    ensures !Includes(s[..j], sep)
  {
    forall i | MatchesAt(s[..j], sep, i)
      ensures false
    {
      assert s[..j] == s[0..j];
      MatchInSlice(s, sep, 0, j, i);
    }
  }

  /** An occurrence inside a slice is an occurrence in the whole, shifted. */
  lemma MatchInSlice<T>(s: seq<T>, pat: seq<T>, lo: nat, hi: nat, i: int)
    requires lo <= hi <= |s|
    requires MatchesAt(s[lo..hi], pat, i)
    ensures MatchesAt(s, pat, lo + i)
  {
    forall k | 0 <= k < |pat|
      ensures s[lo + i..lo + i + |pat|][k] == pat[k]
    {
      assert s[lo..hi][i..i + |pat|][k] == pat[k];
    }
  }

  /** An occurrence in `b` is an occurrence in `a + b + c`. */
  lemma IncludesInside<T>(a: seq<T>, b: seq<T>, c: seq<T>, pat: seq<T>)
    requires Includes(b, pat)
    ensures Includes(a + b + c, pat)
  {
    var i :| MatchesAt(b, pat, i);
    var s := a + b + c;
    assert s[|a|..|a| + |b|] == b;
    MatchInSlice(s, pat, |a|, |a| + |b|, i);
  }

  /** `pat` at `k` is the first occurrence when the text before the end of
      that occurrence's last element holds none. */
  lemma FirstOccurrence<T>(s: seq<T>, pat: seq<T>, k: nat)
    requires |pat| > 0 && MatchesAt(s, pat, k)
    requires !Includes(s[..k + |pat| - 1], pat)
    ensures IndexOf(s, pat, 0) == k
  {
    var r := IndexOf(s, pat, 0);
    if r < k {
      MatchInPrefix(s, pat, r, k + |pat| - 1);
    }
  }

  /** An occurrence that ends by `n` is an occurrence in `s[..n]`. */
  lemma MatchInPrefix<T>(s: seq<T>, pat: seq<T>, i: int, n: nat)
    requires MatchesAt(s, pat, i) && i + |pat| <= n <= |s|
    ensures MatchesAt(s[..n], pat, i)
  {
    assert s[..n][i..i + |pat|] == s[i..i + |pat|];
  }

  /** Occurrence is transitive: `u` inside `t` inside `s`. */
  lemma MatchTrans<T>(s: seq<T>, t: seq<T>, u: seq<T>, o: int, o': int)
    requires MatchesAt(s, t, o) && MatchesAt(t, u, o')
    ensures MatchesAt(s, u, o + o')
  {
    MatchInSlice(s, u, o, o + |t|, o');
  }

  /** Where piece `k` starts in `Join(parts, sep)`. */
  function PartOffset<T>(parts: seq<seq<T>>, sep: seq<T>, k: nat): nat
    requires k < |parts|
  {
    if k == 0 then 0 else |parts[0]| + |sep| + PartOffset(parts[1..], sep, k - 1)
  }

  /** Every piece occurs in the joined sequence, at its offset. */
  lemma {:induction false} PartOccursInJoin<T>(parts: seq<seq<T>>, sep: seq<T>, k: nat)
    requires k < |parts|
    ensures MatchesAt(Join(parts, sep), parts[k], PartOffset(parts, sep, k))
  {
    var s := Join(parts, sep);
    if k == 0 {
      if |parts| > 1 {
        assert s == parts[0] + (sep + Join(parts[1..], sep));
      }
      assert s[..|parts[0]|] == parts[0];
    } else {
      PartOccursInJoin(parts[1..], sep, k - 1);
      var rest := Join(parts[1..], sep);
      var o := PartOffset(parts[1..], sep, k - 1);
      assert s == (parts[0] + sep) + rest;
      assert s[|parts[0] + sep| + o..|parts[0] + sep| + o + |parts[k]|] == rest[o..o + |parts[k]|];
    }
  }

  /** `s.substring(a, b)`: both ends clamped to `[0, |s|]`, and swapped when
      the first is larger. */
  function Substring<T>(s: seq<T>, a: int, b: int): (r: seq<T>)
    ensures 0 <= a <= b <= |s| ==> r == s[a..b]
    ensures 0 <= b <= a <= |s| ==> r == s[b..a]
    ensures MatchesAt(s, r, SubstringStart(s, a, b))
    ensures var x, y := Clamp(a, |s|), Clamp(b, |s|);
      |r| == if x <= y then y - x else x - y
  {
    var x := Clamp(a, |s|);
    var y := Clamp(b, |s|);
    if x <= y then s[x..y] else s[y..x]
  }

  /** Where `s.substring(a, b)` starts in `s`. */
  function SubstringStart<T>(s: seq<T>, a: int, b: int): nat
  {
    var x := Clamp(a, |s|);
    var y := Clamp(b, |s|);
    if x <= y then x else y
  }

  function Clamp(x: int, len: nat): (r: nat)
    ensures r <= len
    ensures 0 <= x <= len ==> r == x
  {
    if x < 0 then 0 else if x > len then len else x
  }

  /** End of the run of characters other than `stop` that starts at `from`:
      the first `stop` at or after `from`, or the end of `s`. */
  function RunEnd(s: string, from: nat, stop: char): (e: nat)
    requires from <= |s|
    ensures from <= e <= |s|
    ensures forall i :: from <= i < e ==> s[i] != stop
    ensures e < |s| ==> s[e] == stop
    decreases |s| - from
  {
    if from == |s| || s[from] == stop then from else RunEnd(s, from + 1, stop)
  }

  /** The regular expression `key([^stop]+)` (or, when `closed`,
      `key([^stop]+)stop`) matches at `p`. The greedy class takes the whole
      run of non-`stop` characters, so backtracking can never help. */
  predicate CaptureAt(s: string, key: string, stop: char, closed: bool, p: int)
  {
    MatchesAt(s, key, p) && p + |key| < |s| && s[p + |key|] != stop
    && (closed ==> RunEnd(s, p + |key|, stop) < |s|)
  }

  /** Leftmost match of the expression at or after `from`, or -1. */
  function FirstCapture(s: string, key: string, stop: char, closed: bool, from: nat): (p: int)
    ensures p == -1 || (from <= p && CaptureAt(s, key, stop, closed, p))
    ensures forall q :: from <= q && (p == -1 || q < p) ==> !CaptureAt(s, key, stop, closed, q)
    decreases |s| - from
  {
    if from >= |s| then -1
    else if CaptureAt(s, key, stop, closed, from) then from
    else FirstCapture(s, key, stop, closed, from + 1)
  }

  /** `s.match(/key([^stop]+)stop?/)?.[1]`: the captured group of the
      leftmost match. */
  function Capture(s: string, key: string, stop: char, closed: bool): (r: Option<string>)
    ensures r.None? <==> forall q :: !CaptureAt(s, key, stop, closed, q)
    ensures r.Some? ==>
      var p := FirstCapture(s, key, stop, closed, 0);
      && r.value != [] && stop !in r.value
      && MatchesAt(s, key + r.value, p)
      && (p + |key| + |r.value| == |s| || s[p + |key| + |r.value|] == stop)
      && (closed ==> p + |key| + |r.value| < |s|)
  {
    var p := FirstCapture(s, key, stop, closed, 0);
    if p == -1 then
      None
    else
      var v := s[p + |key|..RunEnd(s, p + |key|, stop)];
      CaptureShape(s, key, stop, closed, p);
      Some(v)
  }

  lemma CaptureShape(s: string, key: string, stop: char, closed: bool, p: int)
    requires CaptureAt(s, key, stop, closed, p)
    ensures var v := s[p + |key|..RunEnd(s, p + |key|, stop)];
      && v != [] && stop !in v
      && MatchesAt(s, key + v, p)
      && (p + |key| + |v| == |s| || s[p + |key| + |v|] == stop)
      && (closed ==> p + |key| + |v| < |s|)
  {
    var e := RunEnd(s, p + |key|, stop);
    var v := s[p + |key|..e];
    assert s[p..p + |key| + |v|] == s[p..p + |key|] + v;
    assert stop !in v by {
      forall i | 0 <= i < |v| ensures v[i] != stop {
        assert v[i] == s[p + |key| + i];
      }
    }
  }
}
