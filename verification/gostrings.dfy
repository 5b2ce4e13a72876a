/** The pieces of Go's `strings` and `unicode` packages the tracker relies on:
    white-space trimming, lower-casing and substring search. Strings are
    sequences of Unicode scalar values. */
module GoStrings {

  /** The eight characters Go's Latin-1 fast path treats as white space. */
  const LatinSpaces: set<char> :=
    {'\t', '\n', '\U{000B}', '\U{000C}', '\r', ' ', '\U{0085}', '\U{00A0}'}

  /** Go's `unicode.IsSpace`: the ranges of the Unicode White_Space property.
      Within Latin-1 they agree with Go's fast-path switch. */
  function IsSpace(c: char): (r: bool)
    ensures c as int <= 0xFF ==> (r <==> c in LatinSpaces)
    ensures r ==> c as int <= 0x3000
  {
    var n := c as int;
    || 0x09 <= n <= 0x0D
    || n == 0x20 || n == 0x85 || n == 0xA0
    || n == 0x1680
    || 0x2000 <= n <= 0x200A
    || n == 0x2028 || n == 0x2029 || n == 0x202F || n == 0x205F
    || n == 0x3000
  }

  /** Every character of `s` is white space (vacuously so for ""). */
  predicate IsBlank(s: string) {
    forall i :: 0 <= i < |s| ==> IsSpace(s[i])
  }

  /** Drops the leading white space of `s`. */
  function TrimLeft(s: string): (r: string)
    ensures |r| <= |s| && r == s[|s| - |r|..]
    ensures forall j :: 0 <= j < |s| - |r| ==> IsSpace(s[j])
    ensures r == [] || !IsSpace(r[0])
    decreases |s|
  {
    if |s| > 0 && IsSpace(s[0]) then TrimLeft(s[1..]) else s
  }

  /** Drops the trailing white space of `s`. */
  function TrimRight(s: string): (r: string)
    ensures |r| <= |s| && r == s[..|r|]
    ensures forall j :: |r| <= j < |s| ==> IsSpace(s[j])
    ensures r == [] || !IsSpace(r[|r| - 1])
    decreases |s|
  {
    if |s| > 0 && IsSpace(s[|s| - 1]) then TrimRight(s[..|s| - 1]) else s
  }

  /** `t` is `s` with its white space cut off at both ends: `t` sits at
      position `k` of `s`, everything around it is white space, and `t`
      neither starts nor ends with white space. */
  predicate IsTrimOf(s: string, t: string, k: int) {
    && OccursAt(s, t, k)
    && IsBlank(s[..k])
    && IsBlank(s[k + |t|..])
    && (t == [] || (!IsSpace(t[0]) && !IsSpace(t[|t| - 1])))
  }

  /** Go's `strings.TrimSpace`: leading and trailing white space removed. */
  function TrimSpace(s: string): (r: string)
    ensures exists k :: IsTrimOf(s, r, k)
  {
    var l := TrimLeft(s);
    var r := TrimRight(l);
    assert IsTrimOf(s, r, |s| - |l|);
    r
  }

  /** A string trims to "" exactly when it consists of white space only. */
  lemma TrimSpaceEmptyIffBlank(s: string)
    ensures TrimSpace(s) == "" <==> IsBlank(s)
  {
  }

  /** The trim is unique: any piece of `s` that is cut out by white space
      alone and has no white space at its ends is `TrimSpace(s)`. */
  lemma TrimSpaceUnique(s: string, t: string, k: int)
    requires IsTrimOf(s, t, k)
    ensures TrimSpace(s) == t
  {
    if t == [] {
      BlankAround(s, k);
      TrimLeftAt(s, |s|);
    } else {
      TrimLeftOfPiece(s, t, k);
      TrimRightOfPiece(s, t, k);
    }
  }

  /** The leading trim of `s` stops where a non-empty trimmed piece starts. */
  lemma TrimLeftOfPiece(s: string, t: string, k: int)
    requires IsTrimOf(s, t, k) && t != []
    ensures TrimLeft(s) == s[k..]
  {
    forall j | 0 <= j < k ensures IsSpace(s[j]) {
      assert s[..k][j] == s[j];
    }
    assert s[k] == t[0];
    TrimLeftAt(s, k);
  }

  /** The trailing trim of the rest of `s` stops where a non-empty trimmed
      piece ends. */
  lemma TrimRightOfPiece(s: string, t: string, k: int)
    requires IsTrimOf(s, t, k) && t != []
    ensures TrimRight(s[k..]) == t
  {
    var l := s[k..];
    forall j | |t| <= j < |l| ensures IsSpace(l[j]) {
      assert l[j] == s[k + |t|..][j - |t|];
    }
    assert l[|t| - 1] == t[|t| - 1];
    TrimRightAt(l, |t|);
    assert l[..|t|] == t;
  }

  /** White space on both sides of a cut point makes the whole string
      white space. */
  lemma BlankAround(s: string, k: int)
    requires 0 <= k <= |s| && IsBlank(s[..k]) && IsBlank(s[k..])
    ensures forall j :: 0 <= j < |s| ==> IsSpace(s[j])
  {
    forall i | 0 <= i < |s| ensures IsSpace(s[i]) {
      if i < k {
        assert s[..k][i] == s[i];
      } else {
        assert s[k..][i - k] == s[i];
      }
    }
  }

  /** The leading trim stops at the first character that is not white
      space. */
  lemma {:induction false} TrimLeftAt(s: string, k: int)
    requires 0 <= k <= |s|
    requires forall j :: 0 <= j < k ==> IsSpace(s[j])
    requires k == |s| || !IsSpace(s[k])
    ensures TrimLeft(s) == s[k..]
    decreases k
  {
    if k > 0 {
      TrimLeftAt(s[1..], k - 1);
      assert s[1..][k - 1..] == s[k..];
    }
  }

  /** The trailing trim stops after the last character that is not white
      space. */
  lemma {:induction false} TrimRightAt(s: string, e: int)
    requires 0 <= e <= |s|
    requires forall j :: e <= j < |s| ==> IsSpace(s[j])
    requires e == 0 || !IsSpace(s[e - 1])
    ensures TrimRight(s) == s[..e]
    decreases |s| - e
  {
    if e < |s| {
      var init := s[..|s| - 1];
      TrimRightAt(init, e);
      assert init[..e] == s[..e];
    } else {
      assert s[..e] == s;
    }
  }

  /** Lower-cases one character; only the ASCII letters A-Z change. */
  function LowerChar(c: char): char {
    if IsUpperAscii(c) then (c as int + 32) as char else c
  }

  predicate IsUpperAscii(c: char) {
    'A' <= c <= 'Z'
  }

  /** `strings.ToLower` restricted to the ASCII letters. */
  function ToLower(s: string): (r: string)
    ensures |r| == |s|
    ensures forall i :: 0 <= i < |s| ==> !IsUpperAscii(r[i])
    ensures forall i :: 0 <= i < |s| && IsUpperAscii(s[i]) ==> r[i] as int == s[i] as int + 32
    ensures forall i :: 0 <= i < |s| && !IsUpperAscii(s[i]) ==> r[i] == s[i]
  {
    seq(|s|, i requires 0 <= i < |s| => LowerChar(s[i]))
  }

  predicate HasPrefix(s: string, p: string) {
    |p| <= |s| && s[..|p|] == p
  }

  /** `sub` occurs in `s` starting at position `i`. */
  predicate OccursAt(s: string, sub: string, i: int) {
    0 <= i && i + |sub| <= |s| && s[i..i + |sub|] == sub
  }

  /** Go's `strings.Contains`, as a scan over the start positions: it holds
      exactly when `sub` occurs somewhere in `s` (always, for ""). */
  function Contains(s: string, sub: string): (r: bool)
    ensures r <==> exists i :: OccursAt(s, sub, i)
    decreases |s|
  {
    if HasPrefix(s, sub) then
      assert OccursAt(s, sub, 0);
      true
    else if |s| == 0 then false
    else
      OccursShift(s, sub);
      Contains(s[1..], sub)
  }

  /** The occurrences in `s[1..]` are those in `s` moved one to the left. */
  lemma OccursShift(s: string, sub: string)
    requires |s| > 0
    ensures (exists i :: OccursAt(s[1..], sub, i)) <==> exists i :: 1 <= i && OccursAt(s, sub, i)
  {
    if exists i :: OccursAt(s[1..], sub, i) {
      var i :| OccursAt(s[1..], sub, i);
      assert s[1..][i..i + |sub|] == s[i + 1..i + 1 + |sub|];
      assert OccursAt(s, sub, i + 1);
    }
    if exists i :: 1 <= i && OccursAt(s, sub, i) {
      var i :| 1 <= i && OccursAt(s, sub, i);
      assert s[1..][i - 1..i - 1 + |sub|] == s[i..i + |sub|];
      assert OccursAt(s[1..], sub, i - 1);
    }
  }
}
