/** `is_uuid_like` (waldur-grafana-sync/sync.py:57-66): a folder UID counts as
    UUID-like exactly when Python's `uuid.UUID(val)` accepts it.  For a string
    argument the constructor
      1. deletes every "urn:" and then every "uuid:",
      2. strips '{' and '}' from both ends and deletes every '-',
      3. demands exactly 32 characters, parsed by `int(h, 16)`,
      4. demands the value to lie in [0, 2^128).
    Only ASCII input is modelled (see README). */
module Uuid {
  import opened Wrappers
  import opened Text

  predicate IsHexDigit(c: char) {
    ('0' <= c <= '9') || ('a' <= c <= 'f') || ('A' <= c <= 'F')
  }

  /** The ASCII characters that `int()` skips around a number. */
  const Spaces: set<char> :=
    {' ', '\t', '\n', '\U{B}', '\U{C}', '\r', '\U{1C}', '\U{1D}', '\U{1E}', '\U{1F}'}

  const Braces: set<char> := {'{', '}'}

  /** What `uuid.UUID` hands to `int(_, 16)` (steps 1 and 2). */
  function HexPart(val: string): string {
    var h := ReplaceAll(ReplaceAll(val, "urn:", ""), "uuid:", "");
    ReplaceAll(Strip(h, Braces), "-", "")
  }

  /** Hex digits with single underscores between them (PEP 515 grouping). */
  predicate IsDigitRun(v: string) {
    && |v| > 0
    && IsHexDigit(v[0])
    && forall i {:trigger v[i]} :: 0 <= i < |v| ==>
         IsHexDigit(v[i]) || (v[i] == '_' && i + 1 < |v| && IsHexDigit(v[i + 1]))
  }

  /** A literal that `int(s, 16)` accepts: its sign and its digit run. */
  datatype HexLiteral = HexLiteral(negative: bool, digits: string)

  /** `int(s, 16)`: surrounding white space, an optional sign, an optional
      "0x"/"0X" prefix that may be followed by one underscore, then a digit run.
      `None` is the ValueError. */
  function ParseHexInt(s: string): Option<HexLiteral> {
    var t := Strip(s, Spaces);
    var v := Unprefixed(Unsigned(t));
    if IsDigitRun(v) then Some(HexLiteral(|t| > 0 && t[0] == '-', v)) else None
  }

  /** The literal without its sign. */
  function Unsigned(t: string): string {
    if |t| > 0 && (t[0] == '+' || t[0] == '-') then t[1..] else t
  }

  /** The unsigned literal without its "0x" prefix and the one underscore
      allowed after it. */
  function Unprefixed(u: string): string {
    if |u| >= 2 && u[0] == '0' && (u[1] == 'x' || u[1] == 'X') then
      (if |u| >= 3 && u[2] == '_' then u[3..] else u[2..])
    else u
  }

  /** A digit run whose value is zero. */
  predicate IsZero(digits: string) {
    forall i :: 0 <= i < |digits| ==> digits[i] == '0' || digits[i] == '_'
  }

  /** `is_uuid_like(val)`. A run of at most 32 hex digits is always below
      2^128, so of the range check of step 4 only the sign can fail. */
  predicate IsUuidLike(val: string) {
    var h := HexPart(val);
    && |h| == 32
    && match ParseHexInt(h)
       case None => false
       case Some(lit) => !lit.negative || IsZero(lit.digits)
  }

  /** Helper: a pattern with a character that `s` lacks does not occur in `s`. */
  lemma {:induction false} AbsentWhenCharMissing(s: string, p: string, k: nat)
    requires k < |p| && p[k] !in s
    ensures !Occurs(s, p)
  {
    forall i: nat | i <= |s| ensures !OccursAt(s, p, i) {
      if i + |p| <= |s| {
        assert s[i..i + |p|][k] == s[i + k];
      }
    }
  }

  /** The parser reads a plain run of hex digits as a non-negative number. */
  lemma {:induction false} HexDigitsParse(h: string)
    requires |h| > 0 && forall i :: 0 <= i < |h| ==> IsHexDigit(h[i])
    ensures ParseHexInt(h) == Some(HexLiteral(false, h))
  {
    StripUntouched(h, Spaces);
  }

  /** Step 2 deletes every '-', so the sign `int()` sees is never '-' and the
      range check of step 4 never fails. */
  lemma {:induction false} NeverNegative(val: string)
    ensures ParseHexInt(HexPart(val)).Some? ==> !ParseHexInt(HexPart(val)).value.negative
  {
    var h := HexPart(val);
    RemoveCharGone(Strip(ReplaceAll(ReplaceAll(val, "urn:", ""), "uuid:", ""), Braces), '-');
    assert "-" == ['-'];
    var t := Strip(h, Spaces);
    var l := TrimLeft(h, Spaces);
    if |t| > 0 {
      assert t[0] == l[0] == h[|h| - |l|];
    }
  }

  /** So `is_uuid_like` holds exactly when the hex part has 32 characters that
      `int(_, 16)` accepts. */
  lemma {:induction false} UuidLikeIffParses(val: string)
    ensures IsUuidLike(val) <==> |HexPart(val)| == 32 && ParseHexInt(HexPart(val)).Some?
  {
    NeverNegative(val);
  }

  /** The UID of every folder this system creates, 32 hex digits in a row,
      is UUID-like. */
  lemma {:induction false} CanonicalIsUuidLike(h: string)
    requires |h| == 32 && forall i :: 0 <= i < |h| ==> IsHexDigit(h[i])
    ensures HexPart(h) == h
    ensures IsUuidLike(h)
  {
    AbsentWhenCharMissing(h, "urn:", 3);
    ReplaceAbsent(h, "urn:", "");
    AbsentWhenCharMissing(h, "uuid:", 4);
    ReplaceAbsent(h, "uuid:", "");
    StripUntouched(h, Braces);
    AbsentWhenCharMissing(h, "-", 0);
    ReplaceAbsent(h, "-", "");
    HexDigitsParse(h);
  }

  predicate AllHex(s: string) {
    forall i :: 0 <= i < |s| ==> IsHexDigit(s[i])
  }

  /** Helper: deleting hyphens behind a run of hex digits and one hyphen. */
  lemma {:induction false} RemoveHyphenAfter(w: string, rest: string)
    requires AllHex(w)
    ensures ReplaceAll(w + "-" + rest, "-", "") == w + ReplaceAll(rest, "-", "")
  {
    assert "-" == ['-'];
    AbsentWhenCharMissing(w, "-", 0);
    ReplaceAbsent(w, "-", "");
    var tail := "-" + rest;
    RemoveCharConcat(w, tail, '-');
    assert w + "-" + rest == w + tail;
    assert tail[..1] == "-" && tail[1..] == rest;
    assert ReplaceAll(tail, "-", "") == "" + ReplaceAll(rest, "-", "");
  }

  /** Helper: hex digits include none of the characters step 1 and 2 act on. */
  lemma {:induction false} HexHasNoSeparators(w: string)
    requires AllHex(w)
    ensures ':' !in w && '-' !in w
  {
  }

  /** Groups of hex digits joined by hyphens. */
  function JoinHyphen(groups: seq<string>): string
    requires |groups| > 0
  {
    if |groups| == 1 then groups[0] else groups[0] + "-" + JoinHyphen(groups[1..])
  }

  function Concat(groups: seq<string>): string {
    if groups == [] then "" else groups[0] + Concat(groups[1..])
  }

  /** Helper: deleting the hyphens between groups of hex digits concatenates the groups. */
  lemma {:induction false} RemoveHyphens(groups: seq<string>)
    requires |groups| > 0
    requires forall k :: 0 <= k < |groups| ==> AllHex(groups[k])
    ensures ReplaceAll(JoinHyphen(groups), "-", "") == Concat(groups)
  {
    if |groups| == 1 {
      AbsentWhenCharMissing(groups[0], "-", 0);
      ReplaceAbsent(groups[0], "-", "");
      assert Concat(groups[1..]) == "";
      assert groups[0] + "" == groups[0];
    } else {
      RemoveHyphens(groups[1..]);
      RemoveHyphenAfter(groups[0], JoinHyphen(groups[1..]));
    }
  }

  /** Helper: the five groups of the usual UUID form. */
  lemma {:induction false} FiveGroups(a: string, b: string, c: string, d: string, e: string)
    ensures JoinHyphen([a, b, c, d, e]) == a + "-" + b + "-" + c + "-" + d + "-" + e
    ensures Concat([a, b, c, d, e]) == a + b + c + d + e
  {
    assert [a, b, c, d, e][1..] == [b, c, d, e];
    assert [b, c, d, e][1..] == [c, d, e];
    assert [c, d, e][1..] == [d, e];
    assert [d, e][1..] == [e];
    assert [e][1..] == [];
    assert JoinHyphen([e]) == e;
    assert JoinHyphen([d, e]) == d + "-" + e;
    assert JoinHyphen([c, d, e]) == c + "-" + (d + "-" + e);
    assert JoinHyphen([b, c, d, e]) == b + "-" + (c + "-" + (d + "-" + e));
    assert JoinHyphen([a, b, c, d, e]) == a + "-" + (b + "-" + (c + "-" + (d + "-" + e)));
    assert Concat([e]) == e + "";
    assert Concat([d, e]) == d + (e + "");
    assert Concat([c, d, e]) == c + (d + (e + ""));
    assert Concat([b, c, d, e]) == b + (c + (d + (e + "")));
    assert Concat([a, b, c, d, e]) == a + (b + (c + (d + (e + ""))));
  }

  /** The registry's UUIDs in their usual 8-4-4-4-12 form are UUID-like, and
      their hex part is the 32 digits without the hyphens. */
  lemma {:induction false} HyphenatedIsUuidLike(a: string, b: string, c: string, d: string, e: string)
    requires |a| == 8 && |b| == 4 && |c| == 4 && |d| == 4 && |e| == 12
    requires AllHex(a) && AllHex(b) && AllHex(c) && AllHex(d) && AllHex(e)
    ensures HexPart(a + "-" + b + "-" + c + "-" + d + "-" + e) == a + b + c + d + e
    ensures IsUuidLike(a + "-" + b + "-" + c + "-" + d + "-" + e)
  {
    var s := a + "-" + b + "-" + c + "-" + d + "-" + e;
    HexHasNoSeparators(a);
    HexHasNoSeparators(b);
    HexHasNoSeparators(c);
    HexHasNoSeparators(d);
    HexHasNoSeparators(e);
    assert ':' !in s;
    AbsentWhenCharMissing(s, "urn:", 3);
    ReplaceAbsent(s, "urn:", "");
    AbsentWhenCharMissing(s, "uuid:", 4);
    ReplaceAbsent(s, "uuid:", "");
    assert s[0] == a[0] && s[|s| - 1] == e[11];
    StripUntouched(s, Braces);
    FiveGroups(a, b, c, d, e);
    RemoveHyphens([a, b, c, d, e]);
    var h := a + b + c + d + e;
    assert AllHex(h) by {
      forall i | 0 <= i < |h| ensures IsHexDigit(h[i]) {
        assert h[i] in a || h[i] in b || h[i] in c || h[i] in d || h[i] in e;
      }
    }
    HexDigitsParse(h);
  }

  /** Helper: strip and character removal never lengthen a string. */
  lemma {:induction false} HexPartShrinks(val: string)
    ensures |HexPart(val)| <= |val|
  {
    RemoveShrinks(val, "urn:");
    var h1 := ReplaceAll(val, "urn:", "");
    RemoveShrinks(h1, "uuid:");
    var h := ReplaceAll(h1, "uuid:", "");
    RemoveShrinks(Strip(h, Braces), "-");
  }

  /** A UID shorter than 32 characters, such as "general", is never UUID-like,
      so it is never a cleanup candidate. */
  lemma {:induction false} ShortIsNotUuidLike(val: string)
    requires |val| < 32
    ensures !IsUuidLike(val)
  {
    HexPartShrinks(val);
  }

  /** The characters `int(_, 16)` lets through besides hex digits. */
  predicate Tolerated(ch: char) {
    IsHexDigit(ch) || ch in Spaces || ch == '+' || ch == 'x' || ch == 'X' || ch == '_'
  }

  predicate AllTolerated(s: string) {
    forall i :: 0 <= i < |s| ==> Tolerated(s[i])
  }

  /** Helper: a literal `int(_, 16)` accepts, if it holds no '-', consists of
      tolerated characters. */
  lemma {:induction false} LiteralTolerated(t: string)
    requires '-' !in t && IsDigitRun(Unprefixed(Unsigned(t)))
    ensures AllTolerated(t)
  {
    var u := Unsigned(t);
    var v := Unprefixed(u);
    assert AllTolerated(v);
    assert AllTolerated(u) by {
      forall i | 0 <= i < |u| ensures Tolerated(u[i]) {
        if i >= |u| - |v| {
          assert u[i] == v[i - (|u| - |v|)];
        }
      }
    }
    forall i | 0 <= i < |t| ensures Tolerated(t[i]) {
      if i >= |t| - |u| {
        assert t[i] == u[i - (|t| - |u|)];
      } else {
        assert t[i] == t[0];
      }
    }
  }

  /** Helper: a string whose stripped core is tolerated is tolerated. */
  lemma {:induction false} StripTolerated(h: string)
    requires AllTolerated(Strip(h, Spaces))
    ensures AllTolerated(h)
  {
    var l := TrimLeft(h, Spaces);
    var t := TrimRight(l, Spaces);
    assert t == Strip(h, Spaces);
    var off := |h| - |l|;
    assert l == h[off..] && t == l[..|t|];
    forall i | 0 <= i < |h| ensures Tolerated(h[i]) {
      if i < off {
        assert h[i] in Spaces;
      } else if i < off + |t| {
        assert h[i] == t[i - off];
        assert Tolerated(t[i - off]);
      } else {
        assert h[i] == l[i - off];
        assert l[i - off] in Spaces;
      }
    }
  }

  /** Besides hex digits, the only characters a UUID-like value can keep after
      step 2 are what `int()` tolerates: white space at the ends, a '+' sign,
      the 'x' of a "0x" prefix and grouping underscores. */
  lemma {:induction false} UuidLikeAlphabet(val: string)
    requires IsUuidLike(val)
    ensures AllTolerated(HexPart(val))
  {
    var h := HexPart(val);
    RemoveCharGone(Strip(ReplaceAll(ReplaceAll(val, "urn:", ""), "uuid:", ""), Braces), '-');
    assert "-" == ['-'];
    var t := Strip(h, Spaces);
    StripKeepsAbsent(h, Spaces, '-');
    LiteralTolerated(t);
    StripTolerated(h);
  }

  /** When the hex part holds nothing but hex digits, `is_uuid_like` is
      exactly "32 of them". */
  lemma {:induction false} UuidLikeWhenPlainDigits(val: string)
    requires AllHex(HexPart(val))
    ensures IsUuidLike(val) <==> |HexPart(val)| == 32
  {
    if |HexPart(val)| == 32 {
      HexDigitsParse(HexPart(val));
    }
  }
}
