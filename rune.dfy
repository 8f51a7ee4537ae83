/**
 * The rune iteration of the round engine: the sigil log, guess evaluation
 * without guesser essence, and the early move to REVEALING once every
 * non-caster has unveiled.
 */
module Rune {
  import opened Optional
  import opened Guess
  import opened ChamberStore
  import opened Rites

  datatype Outcome = Unveiled | Close | Discord | AlreadyUnveiled | Ignore

  datatype DecipherResult = DecipherResult(outcome: Outcome, essenceGained: int, message: string)

  /** Every seer who is not a caster has unveiled (vacuous without such seers). */
  predicate AllGuessersUnveiled(seers: seq<Seer>) {
    forall i :: 0 <= i < |seers| && !seers[i].isCaster ==> seers[i].hasUnveiled
  }

  /** Some seer is not a caster. */
  predicate HasGuesser(seers: seq<Seer>) {
    exists i :: 0 <= i < |seers| && !seers[i].isCaster
  }

  /** `seers.filter(p => !p.isCaster)`. */
  function Guessers(seers: seq<Seer>): (r: seq<Seer>)
    ensures forall s :: s in r <==> s in seers && !s.isCaster
    ensures |r| > 0 <==> HasGuesser(seers)
  {
    if seers == [] then []
    else if seers[0].isCaster then
      var rest := Guessers(seers[1..]);
      assert HasGuesser(seers[1..]) ==> HasGuesser(seers) by {
        if HasGuesser(seers[1..]) {
          var i :| 0 <= i < |seers[1..]| && !seers[1..][i].isCaster;
          assert !seers[i + 1].isCaster;
        }
      }
      rest
    else
      [seers[0]] + Guessers(seers[1..])
  }

  /** `guessers.every(p => p.hasUnveiled)`. */
  function EveryUnveiled(guessers: seq<Seer>): (b: bool)
    ensures b <==> forall s :: s in guessers ==> s.hasUnveiled
  {
    guessers == [] || (guessers[0].hasUnveiled && EveryUnveiled(guessers[1..]))
  }

  /**
   * assessRitualState: REVEALING exactly when every non-caster has unveiled
   * and there is at least one; otherwise the phase stays. Nothing else changes.
   */
  function Assess(c: Chamber): (r: Chamber)
    ensures r == c.(phase := r.phase)
    ensures r.phase == (if AllGuessersUnveiled(c.seers) && HasGuesser(c.seers) then Revealing else c.phase)
  {
    var guessers := Guessers(c.seers);
    assert EveryUnveiled(guessers) <==> AllGuessersUnveiled(c.seers) by {
      if EveryUnveiled(guessers) {
        forall i | 0 <= i < |c.seers| && !c.seers[i].isCaster
          ensures c.seers[i].hasUnveiled
        {
          assert c.seers[i] in guessers;
        }
      }
    }
    if EveryUnveiled(guessers) && |guessers| > 0 then c.(phase := Revealing) else c
  }

  /**
   * The roster change of the UNVEILED branch for the seer at index i: the
   * guesser is only marked (no essence), the caster earns the bonus.
   */
  function MarkUnveiled(c: Chamber, i: nat): (d: Chamber)
    requires i < |c.seers|
    ensures d == c.(seers := d.seers) && |d.seers| == |c.seers|
    ensures forall j :: 0 <= j < |c.seers| ==>
      d.seers[j].seerId == c.seers[j].seerId && d.seers[j].isCaster == c.seers[j].isCaster
    ensures forall j :: 0 <= j < |c.seers| && j != i ==> d.seers[j].hasUnveiled == c.seers[j].hasUnveiled
    ensures d.seers == RewardCaster(c.seers[i := c.seers[i].(hasUnveiled := true)], c.casterId)
    ensures d.seers[i].hasUnveiled
    ensures d.seers[i].essence == c.seers[i].essence + (if CasterIndex(c) == Some(i) then CasterBonus else 0)
    ensures CasterIndex(c) != Some(i) ==> d.seers[i] == c.seers[i].(hasUnveiled := true)
    ensures forall j :: 0 <= j < |c.seers| && j != i && Some(j) != CasterIndex(c) ==> d.seers[j] == c.seers[j]
    ensures TotalEssence(d.seers) == TotalEssence(c.seers) + (if CasterIndex(c).Some? then CasterBonus else 0)
  {
    var marked := c.seers[i := c.seers[i].(hasUnveiled := true)];
    TotalEssenceAfterUpdate(c.seers, i, c.seers[i].(hasUnveiled := true));
    FindCasterAfterUpdate(c.seers, i, c.seers[i].(hasUnveiled := true), c.casterId);
    c.(seers := RewardCaster(marked, c.casterId))
  }

  /** The UNVEILED branch: MarkUnveiled, then assessRitualState. */
  function Unveil(c: Chamber, i: nat): (d: Chamber)
    requires i < |c.seers|
    ensures d == MarkUnveiled(c, i).(phase := d.phase)
    ensures d.phase == (if AllGuessersUnveiled(d.seers) && HasGuesser(d.seers) then Revealing else c.phase)
  {
    Assess(MarkUnveiled(c, i))
  }

  /**
   * attemptDecipher on one chamber: IGNORE when no guess is heard or the seer
   * is unknown, ALREADY_UNVEILED for the caster or a seer who has unveiled,
   * then UNVEILED, CLOSE or DISCORD. Only UNVEILED changes anything, and it
   * reports no essence.
   */
  function Decipher(c: Chamber, seerId: string, script: string): (r: (DecipherResult, Chamber))
    ensures r.0.essenceGained == 0
    ensures r.0.outcome != Unveiled ==> r.1 == c
    ensures r.0.outcome == Ignore <==> !IsListening(c) || FindSeer(c.seers, seerId).None?
    ensures r.0.outcome == AlreadyUnveiled <==>
      IsListening(c) && FindSeer(c.seers, seerId).Some? &&
      (c.seers[FindSeer(c.seers, seerId).value].hasUnveiled || c.seers[FindSeer(c.seers, seerId).value].isCaster)
    ensures r.0.outcome == Unveiled <==> CanGuess(c, seerId) && IsExact(script, c.enigma.value)
    ensures r.0.outcome == Close <==>
      CanGuess(c, seerId) && !IsExact(script, c.enigma.value) && IsNear(script, c.enigma.value)
    ensures r.0.outcome == Discord <==>
      CanGuess(c, seerId) && !IsExact(script, c.enigma.value) && !IsNear(script, c.enigma.value)
    ensures r.0.outcome == Unveiled ==> r.1 == Unveil(c, FindSeer(c.seers, seerId).value)
  {
    if !IsListening(c) then (DecipherResult(Ignore, 0, script), c)
    else match FindSeer(c.seers, seerId)
      case None => (DecipherResult(Ignore, 0, script), c)
      case Some(i) =>
        var seer := c.seers[i];
        if seer.hasUnveiled || seer.isCaster then
          (DecipherResult(AlreadyUnveiled, 0, script), c)
        else if IsExact(script, c.enigma.value) then
          (DecipherResult(Unveiled, 0, "The Enigma is Unveiled!"), Unveil(c, i))
        else if IsNear(script, c.enigma.value) then
          (DecipherResult(Close, 0, "'" + script + "' is close to the truth!"), c)
        else
          (DecipherResult(Discord, 0, script), c)
  }

  /** A seer is credited at most once per round: after UNVEILED, a further guess is never UNVEILED again. */
  lemma UnveilsAtMostOnce(c: Chamber, seerId: string, first: string, second: string)
    requires Decipher(c, seerId, first).0.outcome == Unveiled
    ensures Decipher(Decipher(c, seerId, first).1, seerId, second).0.outcome in {AlreadyUnveiled, Ignore}
  {
    var d := Decipher(c, seerId, first).1;
    SameIdsSameFind(c.seers, d.seers, seerId);
  }

  /** The last non-caster to unveil moves the chamber to REVEALING. */
  lemma LastGuessReveals(c: Chamber, seerId: string, script: string)
    requires CanGuess(c, seerId) && IsExact(script, c.enigma.value)
    requires forall j :: 0 <= j < |c.seers| && j != FindSeer(c.seers, seerId).value && !c.seers[j].isCaster ==>
      c.seers[j].hasUnveiled
    ensures Decipher(c, seerId, script).1.phase == Revealing
  {
    var i := FindSeer(c.seers, seerId).value;
    var d := MarkUnveiled(c, i);
    assert !d.seers[i].isCaster;
    assert HasGuesser(d.seers);
    assert AllGuessersUnveiled(d.seers);
  }

  /**
   * castSigil: appends the sigil to the log of a stored chamber in
   * MANIFESTING; otherwise nothing changes.
   */
  method CastSigil(reg: Registry, id: string, sigil: Sigil)
    requires reg.Valid()
    modifies reg
    ensures reg.Valid() && reg.order == old(reg.order)
    ensures id in old(reg.chambers) && old(reg.chambers)[id].phase == Manifesting ==>
      var c := old(reg.chambers)[id];
      reg.chambers == old(reg.chambers)[id := c.(sigilHistory := c.sigilHistory + [sigil])]
    ensures !(id in old(reg.chambers) && old(reg.chambers)[id].phase == Manifesting) ==>
      reg.chambers == old(reg.chambers)
  {
    if id in reg.chambers && reg.chambers[id].phase == Manifesting {
      var c := reg.chambers[id];
      reg.chambers := reg.chambers[id := c.(sigilHistory := c.sigilHistory + [sigil])];
    }
  }

  /** banishSigils: empties the sigil log of a stored chamber, in any phase. */
  method BanishSigils(reg: Registry, id: string)
    requires reg.Valid()
    modifies reg
    ensures reg.Valid() && reg.order == old(reg.order)
    ensures id in old(reg.chambers) ==>
      reg.chambers == old(reg.chambers)[id := old(reg.chambers)[id].(sigilHistory := [])]
    ensures id !in old(reg.chambers) ==> reg.chambers == old(reg.chambers)
  {
    if id in reg.chambers {
      reg.chambers := reg.chambers[id := reg.chambers[id].(sigilHistory := [])];
    }
  }

  /** attemptDecipher: IGNORE for an unknown chamber, otherwise Decipher's outcome and chamber. */
  method AttemptDecipher(reg: Registry, id: string, seerId: string, script: string)
    returns (r: DecipherResult)
    requires reg.Valid()
    modifies reg
    ensures reg.Valid() && reg.order == old(reg.order)
    ensures id !in old(reg.chambers) ==> r == DecipherResult(Ignore, 0, script) && reg.chambers == old(reg.chambers)
    ensures id in old(reg.chambers) ==>
      var d := Decipher(old(reg.chambers)[id], seerId, script);
      r == d.0 && reg.chambers == old(reg.chambers)[id := d.1]
  {
    if id !in reg.chambers {
      return DecipherResult(Ignore, 0, script);
    }
    var d := Decipher(reg.chambers[id], seerId, script);
    r := d.0;
    reg.chambers := reg.chambers[id := d.1];
  }

  /**
   * perceiveRitual: null for an unknown chamber; otherwise the chamber with
   * the enigma shown only in REVEALING and the prophecies only to the caster.
   */
  function PerceiveRitual(reg: Registry, id: string, requester: string): (r: Option<Chamber>)
    reads reg
    ensures r.None? <==> id !in reg.chambers
    ensures r.Some? ==> var c := reg.chambers[id];
      && r.value == c.(enigma := r.value.enigma, prophecies := r.value.prophecies)
      && r.value.enigma == (if c.phase == Revealing then c.enigma else None)
      && r.value.prophecies == (if SeesAsCaster(c.seers, requester) then c.prophecies else [])
  {
    if id !in reg.chambers then None
    else
      var c := reg.chambers[id];
      Some(c.(enigma := if c.phase == Revealing then c.enigma else None,
              prophecies := if SeesAsCaster(c.seers, requester) then c.prophecies else []))
  }
}
