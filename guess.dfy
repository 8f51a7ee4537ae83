/**
 * How a guess is compared with the secret word, shared by the round engine
 * iterations: the guess is trimmed and lower-cased, the secret lower-cased.
 */
module Guess {
  import opened Text

  /** `script.trim().toLowerCase()`. */
  function Clean(script: string): string {
    ToLower(Trim(script))
  }

  /** The guess names the secret: `cleanScript === secretTruth`. */
  predicate IsExact(script: string, secret: string) {
    Clean(script) == ToLower(secret)
  }

  function Abs(x: int): nat {
    if x < 0 then -x else x
  }

  /**
   * `secretTruth.includes(cleanScript) && Math.abs(secretTruth.length - cleanScript.length) < 2`.
   */
  predicate IsNear(script: string, secret: string) {
    var clean, truth := Clean(script), ToLower(secret);
    Includes(truth, clean) && Abs(|truth| - |clean|) < 2
  }

  /**
   * A near miss that is not exact is the lower-cased secret with exactly one
   * character missing, at its start or at its end.
   */
  lemma NearMissIsOneCharShort(script: string, secret: string)
    requires IsNear(script, secret) && !IsExact(script, secret)
    ensures var clean, truth := Clean(script), ToLower(secret);
      |clean| + 1 == |truth| && (clean == truth[1..] || clean == truth[..|truth| - 1])
  {
    var clean, truth := Clean(script), ToLower(secret);
    var i :| Occurs(truth, clean, i);
    assert |clean| + 1 == |truth|;
    if i == 0 {
      assert clean == truth[..|truth| - 1];
    } else {
      assert clean == truth[1..];
    }
  }

  /** Whitespace around a guess does not matter: the padded guess is judged like the bare one. */
  lemma PaddingIgnored(ws: string, script: string, ws': string, secret: string)
    requires AllTrimmable(ws) && AllTrimmable(ws')
    ensures Clean(ws + script + ws') == Clean(script)
    ensures IsExact(ws + script + ws', secret) == IsExact(script, secret)
    ensures IsNear(ws + script + ws', secret) == IsNear(script, secret)
  {
    TrimIgnoresPadding(ws, script, ws');
  }

  /**
   * Case does not matter, in the guess or in the secret: guesses that
   * lower-case alike are judged alike against secrets that lower-case alike.
   */
  lemma CaseIgnored(script: string, script': string, secret: string, secret': string)
    requires ToLower(script) == ToLower(script') && ToLower(secret) == ToLower(secret')
    ensures Clean(script) == Clean(script')
    ensures IsExact(script, secret) == IsExact(script', secret')
    ensures IsNear(script, secret) == IsNear(script', secret')
  {
    LowerCommutesWithTrim(script);
    LowerCommutesWithTrim(script');
  }
}
