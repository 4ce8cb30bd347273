/**
  The two PHP string built-ins the login listener relies on: `strncmp` for the
  form-name gate and `trim` for the username. PHP strings are byte strings;
  here every `char` stands for one byte, so `strlen(s)` is `|s|`.
 */
module PhpStrings {

  /** The first `n` bytes of `s`, or all of `s` when it is shorter. */
  function Take(s: string, n: nat): (r: string)
    ensures |r| == if n <= |s| then n else |s|
    ensures r <= s
  {
    if n <= |s| then s[..n] else s
  }

  /** `p` is a prefix of `s`. */
  predicate IsPrefix(p: string, s: string) {
    |p| <= |s| && s[..|p|] == p
  }

  /**
    Binary-safe `strncmp(a, b, n)`: bytes are compared as unsigned values over
    the common length (at most `n`); when they agree, the string that runs out
    first, within the first `n` bytes, is the smaller. The sign is reported as
    -1, 0 or 1.
   */
  function Strncmp(a: string, b: string, n: nat): (r: int)
    ensures -1 <= r <= 1
    decreases n
  {
    if n == 0 || (|a| == 0 && |b| == 0) then 0
    else if |a| == 0 then -1
    else if |b| == 0 then 1
    else if a[0] < b[0] then -1
    else if a[0] > b[0] then 1
    else Strncmp(a[1..], b[1..], n - 1)
  }

  /** `strncmp` reports equality exactly when the first `n` bytes agree. */
  lemma {:induction false} StrncmpZeroIff(a: string, b: string, n: nat)
    ensures Strncmp(a, b, n) == 0 <==> Take(a, n) == Take(b, n)
    decreases n
  {
    if n == 0 || (|a| == 0 && |b| == 0) {
    } else if |a| == 0 || |b| == 0 {
      assert |Take(a, n)| != |Take(b, n)|;
    } else if a[0] != b[0] {
      assert Take(a, n)[0] != Take(b, n)[0];
    } else {
      StrncmpZeroIff(a[1..], b[1..], n - 1);
      assert Take(a, n) == [a[0]] + Take(a[1..], n - 1);
      assert Take(b, n) == [b[0]] + Take(b[1..], n - 1);
      if Take(a, n) == Take(b, n) {
        assert Take(a[1..], n - 1) == Take(a, n)[1..];
        assert Take(b[1..], n - 1) == Take(b, n)[1..];
      }
    }
  }

  /** Swapping the arguments of `strncmp` flips the sign of its result. */
  lemma {:induction false} StrncmpAntisymmetric(a: string, b: string, n: nat)
    ensures Strncmp(a, b, n) == -Strncmp(b, a, n)
    decreases n
  {
    if n == 0 || (|a| == 0 && |b| == 0) || |a| == 0 || |b| == 0 || a[0] != b[0] {
    } else {
      StrncmpAntisymmetric(a[1..], b[1..], n - 1);
    }
  }

  /**
    Comparing the first `|p|` bytes of `s` against the whole of `p` is a
    prefix test: a shorter `s` is never accepted, a longer one is accepted
    whatever follows the prefix.
   */
  lemma StrncmpPrefix(s: string, p: string)
    ensures Strncmp(s, p, |p|) == 0 <==> IsPrefix(p, s)
  {
    StrncmpZeroIff(s, p, |p|);
  }

  /** The bytes PHP's `trim` strips by default: " ", "\t", "\n", "\r", "\0" and "\x0B". */
  predicate IsTrimSpace(c: char) {
    c == ' ' || c == '\t' || c == '\n' || c == '\r' || c == '\0' || c == 11 as char
  }

  predicate AllSpace(s: string) {
    forall i :: 0 <= i < |s| ==> IsTrimSpace(s[i])
  }

  /** Neither end of `s` is a byte `trim` would strip. */
  predicate IsTrimmed(s: string) {
    |s| == 0 || (!IsTrimSpace(s[0]) && !IsTrimSpace(s[|s| - 1]))
  }

  /** `s[i..j]` is what is left of `s` after cutting a strippable run from each end. */
  predicate TrimAt(s: string, i: nat, j: nat) {
    i <= j <= |s| && AllSpace(s[..i]) && AllSpace(s[j..]) && IsTrimmed(s[i..j])
  }

  /**
    Reference definition of trimming: `r` is the slice of `s` left once a
    run of strippable bytes is cut from each end, and `r` itself has no
    strippable byte at either end.
   */
  ghost predicate IsTrimOf(r: string, s: string) {
    exists i: nat, j: nat :: TrimAt(s, i, j) && r == s[i..j]
  }

  /** Length of the run of strippable bytes that starts `s`. */
  function LeadingSpaces(s: string): (n: nat)
    ensures n <= |s|
    ensures AllSpace(s[..n])
    ensures n < |s| ==> !IsTrimSpace(s[n])
  {
    if |s| > 0 && IsTrimSpace(s[0]) then
      var m := LeadingSpaces(s[1..]);
      assert s[..m + 1] == [s[0]] + s[1..][..m];
      m + 1
    else 0
  }

  /** Length of the run of strippable bytes that ends `s`. */
  function TrailingSpaces(s: string): (n: nat)
    ensures n <= |s|
    ensures AllSpace(s[|s| - n..])
    ensures n < |s| ==> !IsTrimSpace(s[|s| - n - 1])
  {
    if |s| > 0 && IsTrimSpace(s[|s| - 1]) then
      var init := s[..|s| - 1];
      var m := TrailingSpaces(init);
      assert s[|s| - (m + 1)..] == init[|init| - m..] + [s[|s| - 1]];
      m + 1
    else 0
  }

  /** PHP's `trim` with its default byte set. */
  function Trim(s: string): (r: string)
    ensures IsTrimOf(r, s)
    ensures IsTrimmed(r)
    ensures |r| <= |s|
  {
    var i := LeadingSpaces(s);
    var rest := s[i..];
    var k := TrailingSpaces(rest);
    var j := |s| - k;
    assert rest[..|rest| - k] == s[i..j];
    assert s[j..] == rest[|rest| - k..];
    assert i < j ==> s[i..j][0] == s[i] && s[i..j][j - i - 1] == rest[|rest| - k - 1];
    assert TrimAt(s, i, j);
    s[i..j]
  }

  /** Every byte before `i` is strippable when the prefix up to `i` is. */
  lemma SpaceBefore(s: string, i: nat, k: nat)
    requires i <= |s| && AllSpace(s[..i]) && k < i
    ensures IsTrimSpace(s[k])
  {
  }

  /** Every byte from `j` on is strippable when the suffix from `j` is. */
  lemma SpaceAfter(s: string, j: nat, k: nat)
    requires j <= k < |s| && AllSpace(s[j..])
    ensures IsTrimSpace(s[k])
  {
  }

  /** An empty trim result means every byte of `s` is strippable. */
  lemma EmptyTrimAllSpace(s: string, i: nat)
    requires TrimAt(s, i, i)
    ensures AllSpace(s)
  {
    forall k | 0 <= k < |s|
      ensures IsTrimSpace(s[k])
    {
      if k < i { SpaceBefore(s, i, k); } else { SpaceAfter(s, i, k); }
    }
  }

  /** A string made only of strippable bytes trims to nothing. */
  lemma AllSpaceTrimEmpty(s: string, i: nat, j: nat)
    requires AllSpace(s) && TrimAt(s, i, j)
    ensures i == j
  {
  }

  /** A non-empty trim result starts at the first non-strippable byte. */
  lemma NonEmptyTrimStart(s: string, i: nat, j: nat)
    requires TrimAt(s, i, j) && i < j
    ensures i == LeadingSpaces(s)
  {
  }

  /** A non-empty trim result ends at the last non-strippable byte. */
  lemma NonEmptyTrimEnd(s: string, i: nat, j: nat)
    requires TrimAt(s, i, j) && i < j
    ensures j == |s| - TrailingSpaces(s)
  {
  }

  /** Two cut positions that both satisfy the reference definition agree on the result. */
  lemma TrimAtUnique(s: string, i1: nat, j1: nat, i2: nat, j2: nat)
    requires TrimAt(s, i1, j1) && TrimAt(s, i2, j2)
    ensures s[i1..j1] == s[i2..j2]
  {
    if i1 == j1 {
      EmptyTrimAllSpace(s, i1);
      AllSpaceTrimEmpty(s, i2, j2);
    } else if i2 == j2 {
      EmptyTrimAllSpace(s, i2);
      AllSpaceTrimEmpty(s, i1, j1);
    } else {
      NonEmptyTrimStart(s, i1, j1);
      NonEmptyTrimStart(s, i2, j2);
      NonEmptyTrimEnd(s, i1, j1);
      NonEmptyTrimEnd(s, i2, j2);
    }
  }

  /** The reference definition admits exactly one result: `Trim` is the trim. */
  lemma TrimOfUnique(r1: string, r2: string, s: string)
    requires IsTrimOf(r1, s) && IsTrimOf(r2, s)
    ensures r1 == r2
  {
    var i1: nat, j1: nat :| TrimAt(s, i1, j1) && r1 == s[i1..j1];
    var i2: nat, j2: nat :| TrimAt(s, i2, j2) && r2 == s[i2..j2];
    TrimAtUnique(s, i1, j1, i2, j2);
  }

  /** A string with nothing to strip at either end is left as it is. */
  lemma TrimmedIsFixed(s: string)
    requires IsTrimmed(s)
    ensures Trim(s) == s
  {
    assert s[0..|s|] == s;
    assert TrimAt(s, 0, |s|);
    TrimOfUnique(Trim(s), s, s);
  }

  /** Trimming twice is trimming once. */
  lemma TrimIdempotent(s: string)
    ensures Trim(Trim(s)) == Trim(s)
  {
    TrimmedIsFixed(Trim(s));
  }

  /** `trim` yields the empty string exactly for strings made only of strippable bytes. */
  lemma TrimEmptyIff(s: string)
    ensures Trim(s) == [] <==> AllSpace(s)
  {
    var r := Trim(s);
    var i: nat, j: nat :| TrimAt(s, i, j) && r == s[i..j];
    if i == j {
      EmptyTrimAllSpace(s, i);
    } else {
      assert r[0] == s[i] && !IsTrimSpace(r[0]);
    }
  }
}
