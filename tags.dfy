/**
  Tag normalisation done by `get_profile` and `get_clan` before a request:
  Python's `query.strip("#")`, which removes every `#` at the start and at the
  end of the tag and keeps every `#` in between.
 */
module Tags {

  /**
    `s[i..j]` is what stripping `#` from both ends leaves: everything before
    `i` and from `j` on is `#`, and the slice neither starts nor ends with `#`.
    This is the reference definition `Strip` is proved against.
   */
  predicate IsHashTrim(s: string, i: int, j: int)
  {
    && 0 <= i <= j <= |s|
    && (forall k :: 0 <= k < i ==> s[k] == '#')
    && (forall k :: j <= k < |s| ==> s[k] == '#')
    && (i < j ==> s[i] != '#' && s[j - 1] != '#')
  }

  /** The first index at or after `i` that does not hold `#` (or `|s|`). */
  function SkipLeading(s: string, i: nat): (r: nat)
    requires i <= |s|
    ensures i <= r <= |s|
    ensures forall k :: i <= k < r ==> s[k] == '#'
    ensures r < |s| ==> s[r] != '#'
    decreases |s| - i
  {
    if i < |s| && s[i] == '#' then SkipLeading(s, i + 1) else i
  }

  /** Moves the end `j` back over `#`, never past `i`. */
  function SkipTrailing(s: string, i: nat, j: nat): (r: nat)
    requires i <= j <= |s|
    ensures i <= r <= j
    ensures forall k :: r <= k < j ==> s[k] == '#'
    ensures i < r ==> s[r - 1] != '#'
    decreases j
  {
    if i < j && s[j - 1] == '#' then SkipTrailing(s, i, j - 1) else j
  }

  /**
    `str.strip("#")`: the start skips the leading hashes, then the end moves
    back over the trailing ones, and the slice between them is returned.
   */
  function Strip(s: string): (r: string)
    ensures |r| > 0 ==> r[0] != '#' && r[|r| - 1] != '#'
    ensures IsHashTrim(s, SkipLeading(s, 0), SkipLeading(s, 0) + |r|)
    ensures r == s[SkipLeading(s, 0)..SkipLeading(s, 0) + |r|]
  {
    var i := SkipLeading(s, 0);
    s[i..SkipTrailing(s, i, |s|)]
  }

  /** At most one slice of `s` fits the reference definition. */
  lemma HashTrimUnique(s: string, i: int, j: int, i': int, j': int)
    requires IsHashTrim(s, i, j) && IsHashTrim(s, i', j')
    ensures s[i..j] == s[i'..j']
  {
    if i == j {
      if i' < j' { assert false; }
    } else if i' == j' {
      assert false;
    } else {
      if i != i' || j != j' { assert false; }
    }
  }

  /** `Strip` is exactly the reference definition: any fitting slice is its result. */
  lemma StripCharacterised(s: string, i: int, j: int)
    requires IsHashTrim(s, i, j)
    ensures Strip(s) == s[i..j]
  {
    var r := Strip(s);
    HashTrimUnique(s, i, j, SkipLeading(s, 0), SkipLeading(s, 0) + |r|);
  }

  /** Stripping twice is stripping once. */
  lemma StripIdempotent(s: string)
    ensures Strip(Strip(s)) == Strip(s)
  {
    var r := Strip(s);
    assert IsHashTrim(r, 0, |r|);
    StripCharacterised(r, 0, |r|);
  }

  /** A run of `n` hashes. */
  function Hashes(n: nat): (r: string)
    ensures |r| == n && forall k :: 0 <= k < n ==> r[k] == '#'
  {
    seq(n, _ => '#')
  }

  /** Character `k` of `t` padded with `n` hashes in front and `m` behind. */
  lemma PaddedAt(t: string, n: nat, m: nat, k: int)
    requires 0 <= k < n + |t| + m
    ensures |Hashes(n) + t + Hashes(m)| == n + |t| + m
    ensures (Hashes(n) + t + Hashes(m))[k] == if n <= k < n + |t| then t[k - n] else '#'
  {
    var s1 := Hashes(n) + t;
    if k < n + |t| {
      assert (s1 + Hashes(m))[k] == s1[k];
    } else {
      assert (s1 + Hashes(m))[k] == Hashes(m)[k - n - |t|];
    }
  }

  /** A trim of `t` shifted by `n` is a trim of `t` padded with hashes. */
  lemma PaddedTrim(t: string, n: nat, m: nat, i: int, j: int)
    requires IsHashTrim(t, i, j)
    ensures IsHashTrim(Hashes(n) + t + Hashes(m), n + i, n + j)
    ensures (Hashes(n) + t + Hashes(m))[n + i..n + j] == t[i..j]
  {
    var s := Hashes(n) + t + Hashes(m);
    forall k | 0 <= k < n + i ensures s[k] == '#' {
      PaddedAt(t, n, m, k);
    }
    forall k | n + j <= k < |s| ensures s[k] == '#' {
      PaddedAt(t, n, m, k);
    }
    if i < j {
      PaddedAt(t, n, m, n + i);
      PaddedAt(t, n, m, n + j - 1);
    }
    forall k | n + i <= k < n + j ensures s[k] == t[k - n] {
      PaddedAt(t, n, m, k);
    }
  }

  /** Any number of `#` added at either end is removed again. */
  lemma StripIgnoresEndHashes(t: string, n: nat, m: nat)
    ensures Strip(Hashes(n) + t + Hashes(m)) == Strip(t)
  {
    var r := Strip(t);
    var i, j := SkipLeading(t, 0), SkipLeading(t, 0) + |r|;
    var s := Hashes(n) + t + Hashes(m);
    PaddedTrim(t, n, m, i, j);
    StripCharacterised(s, n + i, n + j);
  }

  /** "Removing the '#' is optional": `#t` and `t` normalise alike. */
  lemma StripOptionalHash(t: string)
    ensures Strip("#" + t) == Strip(t)
  {
    StripIgnoresEndHashes(t, 1, 0);
    assert Hashes(1) + t + Hashes(0) == "#" + t;
  }

  /** A `#` between two non-`#` ends is not removed. */
  lemma StripKeepsInnerHash(a: string, b: string)
    requires a != [] && a[0] != '#'
    requires b != [] && b[|b| - 1] != '#'
    ensures Strip(a + "#" + b) == a + "#" + b
  {
    var s := a + "#" + b;
    assert IsHashTrim(s, 0, |s|);
    assert s[0..|s|] == s;
    StripCharacterised(s, 0, |s|);
  }

  /** `"#ABC".strip("#")` is `"ABC"`. */
  lemma StripExample()
    ensures Strip("#ABC") == "ABC"
  {
    StripOptionalHash("ABC");
    assert IsHashTrim("ABC", 0, 3);
    StripCharacterised("ABC", 0, 3);
    assert "ABC"[0..3] == "ABC";
  }
}
