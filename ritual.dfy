/**
 * The ritual iteration of the round engine: picking a caster and offering
 * prophecies, manifesting the enigma with its masked omen, scoring guesses,
 * and the per-viewer masked view.
 */
module Ritual {
  import opened Optional
  import opened Chance
  import opened Text
  import opened Guess
  import opened ChamberStore
  import opened Rites

  const ArcaneBank: seq<string> := ["Dragon", "Potion", "Wizard", "Crystal", "Scroll", "Chalice", "Phoenix", "Grimoire"]

  /** Essence a correct guess earns the guesser: `Math.floor(100 * 0.8)`. */
  const GuesserEssence := 80

  datatype Outcome = Unveiled | Close | Discord | AlreadyUnveiled

  datatype DecipherResult = DecipherResult(outcome: Outcome, essenceGained: int, message: string)

  /** One seer after the cycle's reset: caster flag by id, no unveiling, no round essence. */
  function Anointed(s: Seer, casterId: string): Seer {
    s.(isCaster := s.seerId == casterId, hasUnveiled := false, currentEssence := 0)
  }

  /** The roster after the cycle's `forEach`. */
  function Anoint(seers: seq<Seer>, casterId: string): (r: seq<Seer>)
    ensures |r| == |seers|
    ensures forall i :: 0 <= i < |r| ==> (r[i].isCaster <==> r[i].seerId == casterId)
    ensures forall i :: 0 <= i < |r| ==> !r[i].hasUnveiled && r[i].currentEssence == 0
    ensures forall i :: 0 <= i < |r| ==>
      r[i].(isCaster := seers[i].isCaster, hasUnveiled := seers[i].hasUnveiled,
            currentEssence := seers[i].currentEssence) == seers[i]
  {
    seq(|seers|, i requires 0 <= i < |seers| => Anointed(seers[i], casterId))
  }

  /** Three draws from the bank, repeats allowed; the `?? "Void"` fallbacks are unreachable. */
  function Prophesy(bankRolls: seq<real>): (r: seq<string>)
    requires |bankRolls| == 3 && AllRolls(bankRolls)
    ensures |r| == 3
    ensures forall w :: w in r ==> w in ArcaneBank
  {
    [ ArcaneBank[PickIndex(bankRolls[0], |ArcaneBank|)],
      ArcaneBank[PickIndex(bankRolls[1], |ArcaneBank|)],
      ArcaneBank[PickIndex(bankRolls[2], |ArcaneBank|)] ]
  }

  /** No two seers share a seer id. */
  predicate UniqueSeerIds(seers: seq<Seer>) {
    forall i, j :: 0 <= i < j < |seers| ==> seers[i].seerId != seers[j].seerId
  }

  /**
   * prepareRitualCycle on one chamber: None (returns false) below two
   * seers; otherwise a caster drawn from the roster, a reset roster, three
   * prophecies from the bank, no omen, enigma or sigils, phase INVOKING.
   */
  function PrepareCycle(c: Chamber, casterRoll: real, bankRolls: seq<real>): (r: Option<Chamber>)
    requires IsRoll(casterRoll) && |bankRolls| == 3 && AllRolls(bankRolls)
    ensures r.None? <==> |c.seers| < 2
    ensures r.Some? ==> r.value.casterId.Some? && r.value.seers == Anoint(c.seers, r.value.casterId.value)
    ensures r.Some? ==> var d := r.value;
      && d.casterId.Some?
      && (exists k :: 0 <= k < |c.seers| && c.seers[k].seerId == d.casterId.value)
      && |d.seers| == |c.seers|
      && (forall i :: 0 <= i < |d.seers| ==> (d.seers[i].isCaster <==> d.seers[i].seerId == d.casterId.value))
      && (forall i :: 0 <= i < |d.seers| ==> !d.seers[i].hasUnveiled && d.seers[i].currentEssence == 0)
      && (forall i :: 0 <= i < |d.seers| ==>
            d.seers[i].seerId == c.seers[i].seerId && d.seers[i].socketId == c.seers[i].socketId
            && d.seers[i].essence == c.seers[i].essence)
      && |d.prophecies| == 3 && (forall w :: w in d.prophecies ==> w in ArcaneBank)
      && d.omen.None? && d.enigma.None? && d.sigilHistory == [] && d.phase == Invoking
      && d.chamberId == c.chamberId && d.pact == c.pact && d.manifestedAt == c.manifestedAt
    // with distinct seer ids there is exactly one caster
    ensures r.Some? && UniqueSeerIds(c.seers) ==>
      forall i, j ::
        (0 <= i < |c.seers| && 0 <= j < |c.seers| && r.value.seers[i].isCaster && r.value.seers[j].isCaster)
        ==> i == j
  {
    if |c.seers| < 2 then None
    else
      var k := PickIndex(casterRoll, |c.seers|);
      var casterId := c.seers[k].seerId;
      Some(c.(seers := Anoint(c.seers, casterId), casterId := Some(casterId),
              prophecies := Prophesy(bankRolls), omen := None, enigma := None,
              sigilHistory := [], phase := Invoking))
  }

  /**
   * manifestEnigma on one chamber: the prophecy becomes the enigma, its mask
   * the omen, the prophecies are cleared and the phase is MANIFESTING.
   */
  function Manifest(c: Chamber, prophecy: string): (r: Chamber)
    ensures r == c.(enigma := r.enigma, omen := r.omen, prophecies := [], phase := Manifesting)
    ensures r.enigma == Some(prophecy) && r.omen == Some(Mask(prophecy))
    ensures prophecy != [] ==> |r.omen.value| == 2 * |prophecy| - 1
    ensures forall j :: 0 <= j < |r.omen.value| ==> r.omen.value[j] == '_' || r.omen.value[j] == ' '
    ensures forall i :: 0 <= i < |prophecy| ==> (r.omen.value[2 * i] == ' ' <==> prophecy[i] == ' ')
  {
    c.(enigma := Some(prophecy), omen := Some(Mask(prophecy)), prophecies := [], phase := Manifesting)
  }

  /** The guesser's share of a correct guess. */
  function Credited(s: Seer): Seer {
    s.(essence := s.essence + GuesserEssence, currentEssence := GuesserEssence, hasUnveiled := true)
  }

  /**
   * The UNVEILED branch for the seer at index i: the guesser is credited and
   * marked, then the caster earns the bonus. Seer ids, and so every lookup
   * by seer id, stay where they were.
   */
  function Unveil(c: Chamber, i: nat): (d: Chamber)
    requires i < |c.seers|
    ensures d == c.(seers := d.seers) && |d.seers| == |c.seers|
    ensures forall j :: 0 <= j < |c.seers| ==> d.seers[j].seerId == c.seers[j].seerId
    ensures d.seers == RewardCaster(c.seers[i := Credited(c.seers[i])], c.casterId)
    ensures d.seers[i].hasUnveiled
    ensures CasterIndex(c) != Some(i) ==> d.seers[i] == Credited(c.seers[i])
    ensures forall j :: 0 <= j < |c.seers| && j != i && Some(j) != CasterIndex(c) ==> d.seers[j] == c.seers[j]
    ensures TotalEssence(d.seers) ==
      TotalEssence(c.seers) + GuesserEssence + (if CasterIndex(c).Some? then CasterBonus else 0)
  {
    var credited := c.seers[i := Credited(c.seers[i])];
    TotalEssenceAfterUpdate(c.seers, i, Credited(c.seers[i]));
    FindCasterAfterUpdate(c.seers, i, Credited(c.seers[i]), c.casterId);
    c.(seers := RewardCaster(credited, c.casterId))
  }

  /**
   * attemptDecipher on one chamber: the outcome and the chamber afterwards.
   * Only UNVEILED changes anything (see Unveil).
   */
  function Decipher(c: Chamber, seerId: string, script: string): (r: (DecipherResult, Chamber))
    ensures r.0.outcome != Unveiled ==> r.1 == c && r.0.essenceGained == 0
    ensures r.0.outcome == AlreadyUnveiled <==>
      IsListening(c) && FindSeer(c.seers, seerId).Some? &&
      (c.seers[FindSeer(c.seers, seerId).value].hasUnveiled || c.seers[FindSeer(c.seers, seerId).value].isCaster)
    ensures r.0.outcome == Unveiled <==> CanGuess(c, seerId) && IsExact(script, c.enigma.value)
    ensures r.0.outcome == Close <==>
      CanGuess(c, seerId) && !IsExact(script, c.enigma.value) && IsNear(script, c.enigma.value)
    ensures r.0.outcome == Unveiled ==>
      r.0.essenceGained == GuesserEssence && r.1 == Unveil(c, FindSeer(c.seers, seerId).value)
  {
    if !IsListening(c) then (DecipherResult(Discord, 0, script), c)
    else match FindSeer(c.seers, seerId)
      case None => (DecipherResult(Discord, 0, script), c)
      case Some(i) =>
        var seer := c.seers[i];
        if seer.hasUnveiled || seer.isCaster then
          (DecipherResult(AlreadyUnveiled, 0, script), c)
        else if IsExact(script, c.enigma.value) then
          (DecipherResult(Unveiled, GuesserEssence, "The Enigma is Unveiled!"), Unveil(c, i))
        else if IsNear(script, c.enigma.value) then
          (DecipherResult(Close, 0, "'" + script + "' is close to the truth!"), c)
        else
          (DecipherResult(Discord, 0, script), c)
  }

  /** A seer is scored at most once per cycle: after unveiling, any further guess is ALREADY_UNVEILED. */
  lemma ScoredAtMostOnce(c: Chamber, seerId: string, first: string, second: string)
    requires Decipher(c, seerId, first).0.outcome == Unveiled
    ensures Decipher(Decipher(c, seerId, first).1, seerId, second).0.outcome == AlreadyUnveiled
  {
    var i := FindSeer(c.seers, seerId).value;
    var d := Decipher(c, seerId, first).1;
    SameIdsSameFind(c.seers, d.seers, seerId);
  }

  /**
   * perceiveRitual: null for an unknown chamber; otherwise the chamber with
   * the enigma hidden and the prophecies shown only to the caster.
   */
  function PerceiveRitual(reg: Registry, id: string, requester: string): (r: Option<Chamber>)
    reads reg
    ensures r.None? <==> id !in reg.chambers
    ensures r.Some? ==> var c := reg.chambers[id];
      && r.value == c.(enigma := None, prophecies := r.value.prophecies)
      && (SeesAsCaster(c.seers, requester) ==> r.value.prophecies == c.prophecies)
      && (!SeesAsCaster(c.seers, requester) ==> r.value.prophecies == [])
  {
    if id !in reg.chambers then None
    else
      var c := reg.chambers[id];
      Some(c.(enigma := None, prophecies := if SeesAsCaster(c.seers, requester) then c.prophecies else []))
  }

  /**
   * prepareRitualCycle: false, and nothing changes, for an unknown chamber
   * or one with fewer than two seers; otherwise the chamber is replaced by
   * PrepareCycle's. The roster reset is the source's `forEach`.
   */
  method PrepareRitualCycle(reg: Registry, id: string, casterRoll: real, bankRolls: seq<real>)
    returns (ok: bool)
    requires reg.Valid()
    requires IsRoll(casterRoll) && |bankRolls| == 3 && AllRolls(bankRolls)
    modifies reg
    ensures reg.Valid() && reg.order == old(reg.order)
    ensures ok <==> id in old(reg.chambers) && |old(reg.chambers)[id].seers| >= 2
    ensures !ok ==> reg.chambers == old(reg.chambers)
    ensures ok ==> reg.chambers == old(reg.chambers)[id := PrepareCycle(old(reg.chambers)[id], casterRoll, bankRolls).value]
  {
    if id !in reg.chambers || |reg.chambers[id].seers| < 2 {
      return false;
    }
    var c := reg.chambers[id];
    var casterId := c.seers[PickIndex(casterRoll, |c.seers|)].seerId;
    var seers := c.seers;
    var i := 0;
    while i < |seers|
      invariant 0 <= i <= |seers| == |c.seers|
      invariant forall j :: 0 <= j < i ==> seers[j] == Anointed(c.seers[j], casterId)
      invariant forall j :: i <= j < |seers| ==> seers[j] == c.seers[j]
    {
      seers := seers[i := Anointed(seers[i], casterId)];
      i := i + 1;
    }
    assert seers == Anoint(c.seers, casterId);
    reg.chambers := reg.chambers[id := c.(seers := seers, casterId := Some(casterId),
      prophecies := Prophesy(bankRolls), omen := None, enigma := None, sigilHistory := [], phase := Invoking)];
    ok := true;
  }

  /** manifestEnigma: false for an unknown chamber, otherwise the chamber is replaced by Manifest's. */
  method ManifestEnigma(reg: Registry, id: string, prophecy: string) returns (ok: bool)
    requires reg.Valid()
    modifies reg
    ensures reg.Valid() && reg.order == old(reg.order)
    ensures ok <==> id in old(reg.chambers)
    ensures !ok ==> reg.chambers == old(reg.chambers)
    ensures ok ==> reg.chambers == old(reg.chambers)[id := Manifest(old(reg.chambers)[id], prophecy)]
  {
    if id !in reg.chambers {
      return false;
    }
    reg.chambers := reg.chambers[id := Manifest(reg.chambers[id], prophecy)];
    ok := true;
  }

  /** attemptDecipher: DISCORD for an unknown chamber, otherwise Decipher's outcome and chamber. */
  method AttemptDecipher(reg: Registry, id: string, seerId: string, script: string)
    returns (r: DecipherResult)
    requires reg.Valid()
    modifies reg
    ensures reg.Valid() && reg.order == old(reg.order)
    ensures id !in old(reg.chambers) ==> r == DecipherResult(Discord, 0, script) && reg.chambers == old(reg.chambers)
    ensures id in old(reg.chambers) ==>
      var d := Decipher(old(reg.chambers)[id], seerId, script);
      r == d.0 && reg.chambers == old(reg.chambers)[id := d.1]
  {
    if id !in reg.chambers {
      return DecipherResult(Discord, 0, script);
    }
    var d := Decipher(reg.chambers[id], seerId, script);
    r := d.0;
    reg.chambers := reg.chambers[id := d.1];
  }
}
