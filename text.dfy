/** The string operations of Python's `str` that the synchronisation relies on:
    `replace` with a non-empty pattern, `strip` with a set of characters and
    `split(',')` (with its inverse, `','.join`). */
module Text {

  /** `p` occurs in `s` starting at index `i`. */
  predicate OccursAt(s: string, p: string, i: nat) {
    i + |p| <= |s| && s[i..i + |p|] == p
  }

  /** `p` occurs somewhere in `s`. */
  predicate Occurs(s: string, p: string) {
    exists i: nat | i <= |s| :: OccursAt(s, p, i)
  }

  /** `s.replace(p, r)`: scan `s` from the left and replace every
      non-overlapping occurrence of the non-empty pattern `p` by `r`. */
  function ReplaceAll(s: string, p: string, r: string): string
    requires |p| > 0
    decreases |s|
  {
    if |s| < |p| then s
    else if s[..|p|] == p then r + ReplaceAll(s[|p|..], p, r)
    else [s[0]] + ReplaceAll(s[1..], p, r)
  }

  /** Helper: an occurrence in the tail of `s` is one in `s`, one place on. */
  lemma OccursAtTail(s: string, p: string, i: nat)
    requires |s| > 0
    ensures OccursAt(s[1..], p, i) <==> OccursAt(s, p, i + 1)
  {
    if i + |p| <= |s[1..]| {
      assert s[1..][i..i + |p|] == s[i + 1..i + 1 + |p|];
    }
  }

  /** A string in which the pattern does not occur is left as it is. */
  lemma {:induction false} ReplaceAbsent(s: string, p: string, r: string)
    requires |p| > 0
    requires !Occurs(s, p)
    ensures ReplaceAll(s, p, r) == s
    decreases |s|
  {
    if |s| >= |p| {
      assert !OccursAt(s, p, 0);
      assert s[..|p|] != p;
      forall i: nat | OccursAt(s[1..], p, i) ensures false {
        OccursAtTail(s, p, i);
      }
      ReplaceAbsent(s[1..], p, r);
      assert s == [s[0]] + s[1..];
    }
  }

  /** The leftmost occurrence is the one replaced: when `p` first occurs at
      index |a| of `a + p + b`, the prefix `a` is kept, that occurrence becomes
      `r`, and replacing goes on in `b`. */
  lemma {:induction false} ReplaceFirst(a: string, p: string, b: string, r: string)
    requires |p| > 0
    requires forall i: nat :: i < |a| ==> !OccursAt(a + p + b, p, i)
    ensures ReplaceAll(a + p + b, p, r) == a + r + ReplaceAll(b, p, r)
    decreases |a|
  {
    var s := a + p + b;
    if a == [] {
      assert s == p + b;
      assert s[..|p|] == p;
      assert s[|p|..] == b;
    } else {
      NoEarlierOccurrence(a, p, b);
      ReplaceFirst(a[1..], p, b, r);
      ReplaceFirstStep(a, p, b, r);
    }
  }

  /** Helper: `a + p + b` does not start with `p`, so its first character is
      kept and the rest is `a[1..] + p + b`, replaced as given. */
  lemma ReplaceFirstStep(a: string, p: string, b: string, r: string)
    requires |p| > 0 && a != []
    requires |a + p + b| >= |p| && (a + p + b)[..|p|] != p
    requires (a + p + b)[0] == a[0] && (a + p + b)[1..] == a[1..] + p + b
    requires ReplaceAll(a[1..] + p + b, p, r) == a[1..] + r + ReplaceAll(b, p, r)
    ensures ReplaceAll(a + p + b, p, r) == a + r + ReplaceAll(b, p, r)
  {
    assert ReplaceAll(a + p + b, p, r) == [a[0]] + ReplaceAll(a[1..] + p + b, p, r);
    assert a == [a[0]] + a[1..];
  }

  /** Helper: when `p` does not occur in `a + p + b` before index |a|, the
      string does not start with `p`, and `p` does not occur in its tail
      before index |a| - 1. */
  lemma NoEarlierOccurrence(a: string, p: string, b: string)
    requires |p| > 0 && a != []
    requires forall i: nat :: i < |a| ==> !OccursAt(a + p + b, p, i)
    ensures |a + p + b| >= |p| && (a + p + b)[..|p|] != p
    ensures (a + p + b)[0] == a[0] && (a + p + b)[1..] == a[1..] + p + b
    ensures forall i: nat :: i < |a[1..]| ==> !OccursAt(a[1..] + p + b, p, i)
  {
    var s := a + p + b;
    assert !OccursAt(s, p, 0);
    assert s[1..] == a[1..] + p + b;
    forall i: nat | i < |a[1..]| ensures !OccursAt(a[1..] + p + b, p, i) {
      assert !OccursAt(s, p, i + 1);
      OccursAtTail(s, p, i);
    }
  }

  /** Replacing a pattern by the empty string never makes a string longer. */
  lemma {:induction false} RemoveShrinks(s: string, p: string)
    requires |p| > 0
    ensures |ReplaceAll(s, p, "")| <= |s|
    decreases |s|
  {
    if |s| >= |p| {
      if s[..|p|] == p {
        RemoveShrinks(s[|p|..], p);
      } else {
        RemoveShrinks(s[1..], p);
      }
    }
  }

  /** Removing every occurrence of a single character removes it entirely:
      the character no longer occurs in the result. */
  lemma {:induction false} RemoveCharGone(s: string, c: char)
    ensures c !in ReplaceAll(s, [c], "")
    decreases |s|
  {
    if |s| >= 1 {
      assert s[..1] == [s[0]];
      RemoveCharGone(s[1..], c);
    }
  }

  /** Removing a single character distributes over concatenation
      (a one-character pattern cannot straddle the seam). */
  lemma {:induction false} RemoveCharConcat(a: string, b: string, c: char)
    ensures ReplaceAll(a + b, [c], "") == ReplaceAll(a, [c], "") + ReplaceAll(b, [c], "")
    decreases |a|
  {
    if a == [] {
      assert a + b == b;
    } else {
      assert (a + b)[..1] == a[..1] == [a[0]];
      assert (a + b)[1..] == a[1..] + b;
      RemoveCharConcat(a[1..], b, c);
      var rest := ReplaceAll(a[1..], [c], "");
      if a[0] == c {
        assert ReplaceAll(a, [c], "") == rest;
      } else {
        assert ReplaceAll(a, [c], "") == [a[0]] + rest;
      }
    }
  }

  /** `s.lstrip(cs)`: drop leading characters that belong to `cs`. */
  function TrimLeft(s: string, cs: set<char>): (r: string)
    ensures |r| <= |s| && r == s[|s| - |r|..]
    ensures forall i :: 0 <= i < |s| - |r| ==> s[i] in cs
    ensures r != [] ==> r[0] !in cs
    decreases |s|
  {
    if |s| > 0 && s[0] in cs then TrimLeft(s[1..], cs) else s
  }

  /** `s.rstrip(cs)`: drop trailing characters that belong to `cs`. */
  function TrimRight(s: string, cs: set<char>): (r: string)
    ensures |r| <= |s| && r == s[..|r|]
    ensures forall i :: |r| <= i < |s| ==> s[i] in cs
    ensures r != [] ==> r[|r| - 1] !in cs
    decreases |s|
  {
    if |s| > 0 && s[|s| - 1] in cs then TrimRight(s[..|s| - 1], cs) else s
  }

  /** `s.strip(cs)`. */
  function Strip(s: string, cs: set<char>): string {
    TrimRight(TrimLeft(s, cs), cs)
  }

  /** `strip` only takes characters away: a character `s` lacks is not in
      the result. */
  lemma StripKeepsAbsent(s: string, cs: set<char>, c: char)
    requires c !in s
    ensures c !in Strip(s, cs)
  {
    var l := TrimLeft(s, cs);
    SliceKeepsAbsent(s, c, |s| - |l|, |s|);
    assert s[|s| - |l|..] == s[|s| - |l|..|s|];
    SliceKeepsAbsent(l, c, 0, |TrimRight(l, cs)|);
    assert l[..|TrimRight(l, cs)|] == l[0..|TrimRight(l, cs)|];
  }

  /** Helper: a slice of `s` lacks what `s` lacks. */
  lemma SliceKeepsAbsent(s: string, c: char, i: int, j: int)
    requires 0 <= i <= j <= |s| && c !in s
    ensures c !in s[i..j]
  {
    assert forall k :: 0 <= k < j - i ==> s[i..j][k] == s[i + k];
  }

  /** A string that neither starts nor ends with a character of `cs` is not
      changed by `strip(cs)`. */
  lemma StripUntouched(s: string, cs: set<char>)
    requires s != [] ==> s[0] !in cs && s[|s| - 1] !in cs
    ensures Strip(s, cs) == s
  {
  }

  /** `','.join(parts)`. */
  function JoinComma(parts: seq<string>): string
    requires |parts| > 0
    decreases |parts|
  {
    if |parts| == 1 then parts[0] else parts[0] + "," + JoinComma(parts[1..])
  }

  /** `s.split(',')`: the pieces between commas, including empty ones;
      the empty string gives one empty piece. */
  function SplitComma(s: string): (parts: seq<string>)
    ensures |parts| > 0
    ensures forall k :: 0 <= k < |parts| ==> ',' !in parts[k]
    decreases |s|
  {
    if s == [] then [""]
    else
      var rest := SplitComma(s[1..]);
      if s[0] == ',' then [""] + rest
      else [[s[0]] + rest[0]] + rest[1..]
  }

  /** Joining the pieces of a split gives back the string. */
  lemma {:induction false} JoinSplit(s: string)
    ensures JoinComma(SplitComma(s)) == s
    decreases |s|
  {
    if s != [] {
      var rest := SplitComma(s[1..]);
      JoinSplit(s[1..]);
      if s[0] == ',' {
        assert SplitComma(s)[1..] == rest;
        assert s == [s[0]] + s[1..];
      } else {
        var ps := SplitComma(s);
        assert ps == [[s[0]] + rest[0]] + rest[1..];
        if |rest| == 1 {
          assert s == [s[0]] + s[1..];
        } else {
          assert ps[1..] == rest[1..];
          assert JoinComma(rest) == rest[0] + "," + JoinComma(rest[1..]);
          assert s == [s[0]] + s[1..];
        }
      }
    }
  }

  /** Splitting a join of comma-free pieces gives back the pieces. */
  lemma {:induction false} SplitJoin(parts: seq<string>)
    requires |parts| > 0
    requires forall k :: 0 <= k < |parts| ==> ',' !in parts[k]
    ensures SplitComma(JoinComma(parts)) == parts
    decreases |parts|
  {
    if |parts| == 1 {
      SplitPrefix(parts[0], "");
      assert parts[0] + "" == parts[0];
    } else {
      var j := JoinComma(parts[1..]);
      SplitJoin(parts[1..]);
      assert ("," + j)[1..] == j;
      assert SplitComma("," + j) == [""] + parts[1..];
      SplitPrefix(parts[0], "," + j);
      assert JoinComma(parts) == parts[0] + ("," + j);
      assert parts[0] + "" == parts[0];
      assert parts == [parts[0]] + parts[1..];
    }
  }

  /** Helper: a comma-free prefix is glued onto the first piece. */
  lemma {:induction false} SplitPrefix(w: string, t: string)
    requires ',' !in w
    ensures SplitComma(w + t) == [w + SplitComma(t)[0]] + SplitComma(t)[1..]
    decreases |w|
  {
    if w == [] {
      assert w + t == t;
      assert w + SplitComma(t)[0] == SplitComma(t)[0];
      assert SplitComma(t) == [SplitComma(t)[0]] + SplitComma(t)[1..];
    } else {
      SplitPrefix(w[1..], t);
      assert (w + t)[1..] == w[1..] + t;
      assert [w[0]] + (w[1..] + SplitComma(t)[0]) == w + SplitComma(t)[0];
    }
  }
}
