// The blob-store directory pattern: the configured pattern spells each hash
// level as 'x', the store library expects '#'.
module StoreSettings {

  /** Default of the `pattern` property. */
  const DefaultPattern: string := "xx"

  /** StoreProperties.getNormalizedPattern: `pattern.replaceAll("x", "#")`. */
  function NormalizedPattern(pattern: string): (r: string)
    ensures |r| == |pattern|
    ensures 'x' !in r
    ensures forall k :: 0 <= k < |pattern| && pattern[k] != 'x' ==> r[k] == pattern[k]
    ensures forall k :: 0 <= k < |pattern| && pattern[k] == 'x' ==> r[k] == '#'
  {
    if |pattern| == 0 then []
    else
      var rest := NormalizedPattern(pattern[1..]);
      assert forall k :: 1 <= k < |pattern| ==> pattern[k] == pattern[1..][k - 1];
      [if pattern[0] == 'x' then '#' else pattern[0]] + rest
  }

  /** Normalising a normalised pattern changes nothing. */
  lemma NormalizedPatternIdempotent(pattern: string)
    ensures NormalizedPattern(NormalizedPattern(pattern)) == NormalizedPattern(pattern)
  {
    var once := NormalizedPattern(pattern);
    var twice := NormalizedPattern(once);
    assert forall k :: 0 <= k < |once| ==> once[k] != 'x';
    assert forall k :: 0 <= k < |once| ==> twice[k] == once[k];
  }

  /** A pattern without 'x' is already normal. */
  lemma NormalizedPatternFixes(pattern: string)
    requires 'x' !in pattern
    ensures NormalizedPattern(pattern) == pattern
  {
    var r := NormalizedPattern(pattern);
    assert forall k :: 0 <= k < |pattern| ==> pattern[k] != 'x';
  }

  /** The default pattern normalises to two hash levels. */
  lemma DefaultPatternNormalized()
    ensures NormalizedPattern(DefaultPattern) == "##"
  {
    var r := NormalizedPattern(DefaultPattern);
    assert r[0] == '#' && r[1] == '#';
  }
}
