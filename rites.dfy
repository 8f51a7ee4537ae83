/**
 * Pieces the two round-engine iterations over the chamber store (the ritual
 * and the rune services) share word for word: when a guess is heard at all,
 * the caster's bonus per correct guess, and whose view shows the prophecies.
 */
module Rites {
  import opened Optional
  import opened ChamberStore

  /** Essence the caster earns for each correct guess. */
  const CasterBonus := 15

  /** `chamber.enigma` is set and truthy (non-empty) and the phase is MANIFESTING. */
  predicate IsListening(c: Chamber) {
    c.enigma.Some? && c.enigma.value != "" && c.phase == Manifesting
  }

  /** The sum of every seer's cumulative essence. */
  function TotalEssence(seers: seq<Seer>): int {
    if seers == [] then 0 else seers[0].essence + TotalEssence(seers[1..])
  }

  /** Replacing one seer changes the total by the difference of their essence. */
  lemma {:induction false} TotalEssenceAfterUpdate(seers: seq<Seer>, k: nat, s: Seer)
    requires k < |seers|
    ensures TotalEssence(seers[k := s]) == TotalEssence(seers) - seers[k].essence + s.essence
  {
    if k > 0 {
      assert seers[k := s][1..] == seers[1..][k - 1 := s];
      TotalEssenceAfterUpdate(seers[1..], k - 1, s);
    }
  }

  /** The caster's share of a correct guess: for the first seer whose id is the caster id. */
  function RewardCaster(seers: seq<Seer>, casterId: Option<string>): (r: seq<Seer>)
    ensures |r| == |seers|
    ensures forall j :: 0 <= j < |seers| ==>
      r[j].seerId == seers[j].seerId && r[j].isCaster == seers[j].isCaster && r[j].hasUnveiled == seers[j].hasUnveiled
    ensures casterId.None? || FindSeer(seers, casterId.value).None? ==> r == seers
    ensures casterId.Some? && FindSeer(seers, casterId.value).Some? ==>
      var k := FindSeer(seers, casterId.value).value;
      && r[k] == seers[k].(essence := seers[k].essence + CasterBonus,
                           currentEssence := seers[k].currentEssence + CasterBonus)
      && (forall j :: 0 <= j < |seers| && j != k ==> r[j] == seers[j])
      && TotalEssence(r) == TotalEssence(seers) + CasterBonus
  {
    if casterId.None? then seers
    else match FindSeer(seers, casterId.value)
      case None => seers
      case Some(k) =>
        var s := seers[k].(essence := seers[k].essence + CasterBonus,
                           currentEssence := seers[k].currentEssence + CasterBonus);
        TotalEssenceAfterUpdate(seers, k, s);
        seers[k := s]
  }

  /**
   * `requestingSeer?.isCaster ?? false`: true exactly when the first seer
   * carrying the requester's id is flagged as the caster.
   */
  function SeesAsCaster(seers: seq<Seer>, requester: string): (b: bool)
    ensures b <==> exists k :: (0 <= k < |seers| && seers[k].seerId == requester && seers[k].isCaster
                                && forall j :: 0 <= j < k ==> seers[j].seerId != requester)
  {
    match FindSeer(seers, requester)
    case None => false
    case Some(i) => seers[i].isCaster
  }

  /** The guesser is a known seer, neither the caster nor already unveiled, while a guess is heard. */
  predicate CanGuess(c: Chamber, seerId: string) {
    && IsListening(c)
    && FindSeer(c.seers, seerId).Some?
    && !c.seers[FindSeer(c.seers, seerId).value].hasUnveiled
    && !c.seers[FindSeer(c.seers, seerId).value].isCaster
  }

  /** The caster found by `find` on the caster id, if any. */
  function CasterIndex(c: Chamber): Option<nat> {
    if c.casterId.Some? then FindSeer(c.seers, c.casterId.value) else None
  }
}
