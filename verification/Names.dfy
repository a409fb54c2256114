/** Qualified names as strings: separators, splitting, and decimal numerals in generated ids. */
module Names {
  import opened Wrappers

  predicate SeparatorAt(s: string, k: nat) {
    k + 1 < |s| && s[k] == ':' && s[k + 1] == ':'
  }

  /** The last position below `n` where a `::` begins. */
  function LastSeparatorBelow(s: string, n: nat): (r: Option<nat>)
    ensures r.Some? ==> r.value < n && SeparatorAt(s, r.value)
    ensures forall k :: (if r.Some? then r.value + 1 else 0) <= k < n ==> !SeparatorAt(s, k)
  {
    if n == 0 then None
    else if SeparatorAt(s, n - 1) then Some(n - 1)
    else LastSeparatorBelow(s, n - 1)
  }

  function LastSeparator(s: string): Option<nat> {
    LastSeparatorBelow(s, |s|)
  }

  /** `rsplit_once("::")`: what precedes and what follows the last separator. */
  function RSplitOnce(s: string): (r: Option<(string, string)>)
    ensures r.Some? ==> s == r.value.0 + "::" + r.value.1 && |r.value.0| + 2 <= |s|
  {
    var k := LastSeparator(s);
    if k.Some? then
      assert s == s[..k.value] + s[k.value..k.value + 2] + s[k.value + 2..];
      Some((s[..k.value], s[k.value + 2..]))
    else None
  }

  /** `rsplit("::").next()`: what follows the last separator, or everything. */
  function LastSegment(s: string): string {
    var split := RSplitOnce(s);
    if split.Some? then split.value.1 else s
  }

  predicate StartsWith(s: string, prefix: string) {
    |prefix| <= |s| && s[..|prefix|] == prefix
  }

  predicate EndsWith(s: string, suffix: string) {
    |suffix| <= |s| && forall i :: 0 <= i < |suffix| ==> s[|s| - |suffix| + i] == suffix[i]
  }

  /** `trim_end_matches`: strips a non-empty suffix as often as it occurs. */
  function TrimEnd(s: string, suffix: string): string
    requires suffix != ""
    decreases |s|
  {
    if EndsWith(s, suffix) then TrimEnd(s[..|s| - |suffix|], suffix) else s
  }

  /** The first position from `k` on where `pattern` occurs. */
  function FindFrom(s: string, pattern: string, k: nat): (r: Option<nat>)
    requires k <= |s|
    ensures r.Some? ==> k <= r.value && r.value + |pattern| <= |s| && StartsWith(s[r.value..], pattern)
    decreases |s| - k
  {
    if StartsWith(s[k..], pattern) then Some(k)
    else if k == |s| then None
    else FindFrom(s, pattern, k + 1)
  }

  function Find(s: string, pattern: string): (r: Option<nat>)
    ensures r.Some? ==> r.value + |pattern| <= |s| && StartsWith(s[r.value..], pattern)
  {
    FindFrom(s, pattern, 0)
  }

  function Digit(n: nat): char
    requires n < 10
  {
    "0123456789"[n]
  }

  function Decimal(n: nat): string {
    if n < 10 then [Digit(n)] else Decimal(n / 10) + [Digit(n % 10)]
  }

  lemma {:induction false} DecimalIsInjective(a: nat, b: nat)
    requires Decimal(a) == Decimal(b)
    ensures a == b
  {
    var s, t := Decimal(a), Decimal(b);
    assert s[|s| - 1] == Digit(a % 10) && t[|t| - 1] == Digit(b % 10);
    assert a % 10 == b % 10;
    DecimalNotEmpty(a / 10);
    DecimalNotEmpty(b / 10);
    if a >= 10 && b >= 10 {
      assert s[..|s| - 1] == Decimal(a / 10) && t[..|t| - 1] == Decimal(b / 10);
      DecimalIsInjective(a / 10, b / 10);
    }
  }

  lemma DecimalNotEmpty(n: nat)
    ensures |Decimal(n)| > 0
  {
  }
}
