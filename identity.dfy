/** Identifiers of new highlights, taken from injected UUID strings. */
module Identity {

  predicate IsHexDigit(c: char)
  {
    '0' <= c <= '9' || 'a' <= c <= 'f'
  }

  /** The text of `UUID.toString()`: 8-4-4-4-12 lower-case hex digits joined by dashes. */
  predicate IsUuidText(s: string)
  {
    |s| == 36 &&
    forall i :: 0 <= i < 36 ==> if i in {8, 13, 18, 23} then s[i] == '-' else IsHexDigit(s[i])
  }

  /** `s.replace("-", "")`: every dash removed, everything else kept in order. */
  function RemoveDashes(s: string): (r: string)
    ensures |r| <= |s|
    ensures '-' !in r
    ensures |s| == 1 ==> r == (if s[0] == '-' then [] else s)
  {
    if s == [] then [] else (if s[0] == '-' then [] else [s[0]]) + RemoveDashes(s[1..])
  }

  /** Dash removal works piecewise: removing from a concatenation concatenates the results. */
  lemma {:induction false} RemoveDashesAppend(a: string, b: string)
    ensures RemoveDashes(a + b) == RemoveDashes(a) + RemoveDashes(b)
  {
    if a == [] {
      assert a + b == b;
    } else {
      assert (a + b)[1..] == a[1..] + b;
      RemoveDashesAppend(a[1..], b);
    }
  }

  /** A dash-free prefix survives dash removal unchanged. */
  lemma {:induction false} RemoveDashesKeepsPrefix(s: string, k: nat)
    requires k <= |s| && '-' !in s[..k]
    ensures RemoveDashes(s) == s[..k] + RemoveDashes(s[k..])
  {
    if k > 0 {
      assert s[0] == s[..k][0];
      assert s[1..][..k - 1] == s[1..k];
      assert '-' !in s[1..][..k - 1];
      RemoveDashesKeepsPrefix(s[1..], k - 1);
      assert s[1..][k - 1..] == s[k..];
      assert [s[0]] + s[1..k] == s[..k];
    }
  }

  /** Removing the dashes of a UUID leaves its first 8 hex digits in front. */
  lemma UuidWithoutDashes(u: string)
    requires IsUuidText(u)
    ensures |RemoveDashes(u)| >= 8
    ensures RemoveDashes(u)[..8] == u[..8]
  {
    assert forall i :: 0 <= i < 8 ==> u[..8][i] != '-';
    RemoveDashesKeepsPrefix(u, 8);
  }

  /** `uuid.toString().replace("-", "").substring(0, 8)`. */
  function ShortIdOf(uuid: string): (shortId: string)
    requires IsUuidText(uuid)
    ensures |shortId| == 8
    ensures shortId == uuid[..8]
    ensures forall i :: 0 <= i < 8 ==> IsHexDigit(shortId[i])
  {
    UuidWithoutDashes(uuid);
    RemoveDashes(uuid)[..8]
  }
}
