/**
 * The chamber roster store: the process-wide map of chambers, chamber
 * allocation and provisioning, and seer registration and deregistration.
 */
module ChamberStore {
  import opened Optional

  datatype Phase = Gathering | Invoking | Manifesting | Revealing

  /** Per-chamber configuration. */
  datatype Pact = Pact(
    quorum: int,
    plenum: int,
    maxCycles: int,
    prophecyDurationMs: int,
    fluxDurationMs: int,
    revealDurationMs: int)

  /** The configuration every new chamber starts with. */
  const PrimordialPact := Pact(2, 8, 5, 15000, 80000, 8000)

  datatype Point = Point(x: int, y: int)

  datatype Tip = Etch | Rub

  /** One stroke segment of the caster's drawing. */
  datatype Sigil = Sigil(start: Point, end: Point, tip: Tip, gauge: int, pigment: string)

  /** A participant. `seerId` is the stable identity, `socketId` the connection. */
  datatype Seer = Seer(
    seerId: string,
    socketId: string,
    epithet: string,
    guise: string,
    essence: int,
    isCaster: bool,
    hasUnveiled: bool,
    currentEssence: int)

  datatype Chamber = Chamber(
    chamberId: string,
    seers: seq<Seer>,
    phase: Phase,
    casterId: Option<string>,
    prophecies: seq<string>,
    omen: Option<string>,
    enigma: Option<string>,
    sigilHistory: seq<Sigil>,
    pact: Pact,
    manifestedAt: int)

  /** What a joining client supplies. */
  datatype Profile = Profile(seerId: string, socketId: string, epithet: string, guise: Option<string>)

  /** Reply of registerSeer. */
  datatype Registration = Registration(ok: bool, message: string, seer: Option<Seer>)

  /** Reply of deregisterSeer. */
  datatype Departure = Departure(deregistered: bool, chamberDisposed: bool, seer: Option<Seer>)

  /** A chamber in its provisioned state: gathering, empty and without a round. */
  predicate IsPristine(c: Chamber) {
    && c.seers == []
    && c.phase == Gathering
    && c.casterId.None? && c.omen.None? && c.enigma.None?
    && c.prophecies == [] && c.sigilHistory == []
    && c.pact == PrimordialPact
  }

  /** The chamber provisionChamber builds; `now` stands for `Date.now()`. */
  function NewChamber(chamberId: string, now: int): (c: Chamber)
    ensures IsPristine(c)
    ensures c.chamberId == chamberId && c.manifestedAt == now
  {
    Chamber(chamberId, [], Gathering, None, [], None, None, [], PrimordialPact, now)
  }

  /** `seers.findIndex(p => p.socketId === socketId)`, with -1 as None. */
  function FindSocket(seers: seq<Seer>, socketId: string): (r: Option<nat>)
    ensures r.Some? ==> r.value < |seers| && seers[r.value].socketId == socketId
    ensures r.Some? ==> forall j :: 0 <= j < r.value ==> seers[j].socketId != socketId
    ensures r.None? <==> forall j :: 0 <= j < |seers| ==> seers[j].socketId != socketId
  {
    if seers == [] then None
    else if seers[0].socketId == socketId then Some(0)
    else match FindSocket(seers[1..], socketId)
      case None => None
      case Some(k) => Some(k + 1)
  }

  /** `seers.find(s => s.seerId === seerId)`, as the index of the first match. */
  function FindSeer(seers: seq<Seer>, seerId: string): (r: Option<nat>)
    ensures r.Some? ==> r.value < |seers| && seers[r.value].seerId == seerId
    ensures r.Some? ==> forall j :: 0 <= j < r.value ==> seers[j].seerId != seerId
    ensures r.None? <==> forall j :: 0 <= j < |seers| ==> seers[j].seerId != seerId
  {
    if seers == [] then None
    else if seers[0].seerId == seerId then Some(0)
    else match FindSeer(seers[1..], seerId)
      case None => None
      case Some(k) => Some(k + 1)
  }

  /** Replacing a seer by one with the same seer id does not move any `find` by seer id. */
  lemma {:induction false} FindSeerAfterUpdate(seers: seq<Seer>, k: nat, s: Seer, seerId: string)
    requires k < |seers| && s.seerId == seers[k].seerId
    ensures FindSeer(seers[k := s], seerId) == FindSeer(seers, seerId)
  {
    if k > 0 {
      assert seers[k := s][1..] == seers[1..][k - 1 := s];
      FindSeerAfterUpdate(seers[1..], k - 1, s, seerId);
    }
  }

  /** Two rosters with the same seer ids at the same places answer every `find` by seer id alike. */
  lemma {:induction false} SameIdsSameFind(a: seq<Seer>, b: seq<Seer>, seerId: string)
    requires |a| == |b| && forall j :: 0 <= j < |a| ==> a[j].seerId == b[j].seerId
    ensures FindSeer(a, seerId) == FindSeer(b, seerId)
  {
    if a != [] {
      SameIdsSameFind(a[1..], b[1..], seerId);
    }
  }

  /** FindSeerAfterUpdate for an id that may be absent (a caster id before the first cycle). */
  lemma FindCasterAfterUpdate(seers: seq<Seer>, k: nat, s: Seer, casterId: Option<string>)
    requires k < |seers| && s.seerId == seers[k].seerId
    ensures casterId.Some? ==> FindSeer(seers[k := s], casterId.value) == FindSeer(seers, casterId.value)
  {
    if casterId.Some? {
      FindSeerAfterUpdate(seers, k, s, casterId.value);
    }
  }

  /** `profile.guise || ""`. */
  function GuiseOrBlank(guise: Option<string>): string {
    if guise.Some? then guise.value else ""
  }

  /**
   * The roster change registerSeer makes in an existing chamber with the
   * given plenum: reject a new socket at capacity, replace the entry of a
   * known socket in place (keeping its essence), or append a new seer.
   */
  function Admit(seers: seq<Seer>, plenum: int, p: Profile): (r: (Registration, seq<Seer>))
    // rejection: only a new socket at capacity, and the roster is untouched
    ensures !r.0.ok <==> FindSocket(seers, p.socketId).None? && |seers| >= plenum
    ensures !r.0.ok ==> r.0.seer.None? && r.0.message == "chamber is full" && r.1 == seers
    // the reply names the kind of registration
    ensures r.0.ok ==>
      r.0.message == (if FindSocket(seers, p.socketId).Some? then "seer re-registered" else "seer registered")
    // the roster never grows past the plenum
    ensures |seers| <= plenum ==> |r.1| <= plenum
    // the registered seer starts the round fresh
    ensures r.0.ok ==> r.0.seer.Some? && var s := r.0.seer.value;
      && s.seerId == p.seerId && s.socketId == p.socketId && s.epithet == p.epithet
      && s.guise == GuiseOrBlank(p.guise)
      && !s.isCaster && !s.hasUnveiled && s.currentEssence == 0
    // re-registration: same index, same length, old essence, every other seer untouched
    ensures r.0.ok && FindSocket(seers, p.socketId).Some? ==>
      var k := FindSocket(seers, p.socketId).value;
      && |r.1| == |seers| && r.1[k] == r.0.seer.value
      && r.0.seer.value.essence == seers[k].essence
      && (forall j :: 0 <= j < |seers| && j != k ==> r.1[j] == seers[j])
    // new socket under capacity: exactly one seer appended, with no essence
    ensures r.0.ok && FindSocket(seers, p.socketId).None? ==>
      r.1 == seers + [r.0.seer.value] && r.0.seer.value.essence == 0
  {
    var existing := FindSocket(seers, p.socketId);
    if existing.None? && |seers| >= plenum then
      (Registration(false, "chamber is full", None), seers)
    else
      var essence := if existing.Some? then seers[existing.value].essence else 0;
      var seer := Seer(p.seerId, p.socketId, p.epithet, GuiseOrBlank(p.guise), essence, false, false, 0);
      if existing.Some? then
        (Registration(true, "seer re-registered", Some(seer)), seers[existing.value := seer])
      else
        (Registration(true, "seer registered", Some(seer)), seers + [seer])
  }

  /** `seers.filter(p => p.socketId !== socketId)`. */
  function Expel(seers: seq<Seer>, socketId: string): (r: seq<Seer>)
    ensures forall s :: s in r <==> s in seers && s.socketId != socketId
    ensures |r| <= |seers|
    ensures FindSocket(seers, socketId).Some? ==> |r| < |seers|
    ensures FindSocket(seers, socketId).None? ==> r == seers
  {
    if seers == [] then []
    else if seers[0].socketId == socketId then Expel(seers[1..], socketId)
    else [seers[0]] + Expel(seers[1..], socketId)
  }

  /** Filtering keeps the remaining seers in their original order: it distributes over concatenation. */
  lemma {:induction false} ExpelKeepsOrder(a: seq<Seer>, b: seq<Seer>, socketId: string)
    ensures Expel(a + b, socketId) == Expel(a, socketId) + Expel(b, socketId)
  {
    if a == [] {
      assert a + b == b;
    } else {
      assert (a + b)[0] == a[0];
      assert (a + b)[1..] == a[1..] + b;
      ExpelKeepsOrder(a[1..], b, socketId);
      if a[0].socketId == socketId {
        calc {
          Expel(a + b, socketId);
          Expel(a[1..] + b, socketId);
          Expel(a[1..], socketId) + Expel(b, socketId);
        }
      } else {
        calc {
          Expel(a + b, socketId);
          [a[0]] + Expel(a[1..] + b, socketId);
          [a[0]] + (Expel(a[1..], socketId) + Expel(b, socketId));
          ([a[0]] + Expel(a[1..], socketId)) + Expel(b, socketId);
        }
      }
    }
  }

  /** A chamber allocateChamber may hand out: `seers.length <= plenum` (note: not `<`). */
  predicate IsOpen(c: Chamber) {
    |c.seers| <= c.pact.plenum
  }

  /** Index, in iteration order, of the first stored chamber allocateChamber accepts. */
  function FirstOpen(keys: seq<string>, chambers: map<string, Chamber>): (r: Option<nat>)
    requires forall k :: k in keys ==> k in chambers
    ensures r.Some? ==> r.value < |keys| && IsOpen(chambers[keys[r.value]])
    ensures r.Some? ==> forall j :: 0 <= j < r.value ==> !IsOpen(chambers[keys[j]])
    ensures r.None? <==> forall j :: 0 <= j < |keys| ==> !IsOpen(chambers[keys[j]])
  {
    if keys == [] then None
    else if IsOpen(chambers[keys[0]]) then Some(0)
    else match FirstOpen(keys[1..], chambers)
      case None => None
      case Some(k) => Some(k + 1)
  }

  /**
   * A chamber whose roster is exactly at the plenum is still "open" to
   * allocateChamber (the test is `<=`), so it is handed out when no earlier
   * chamber is open, and registerSeer then refuses any new socket in it.
   */
  lemma FullChamberIsStillAllocated(keys: seq<string>, chambers: map<string, Chamber>, i: nat, p: Profile)
    requires forall k :: k in keys ==> k in chambers
    requires i < |keys| && |chambers[keys[i]].seers| == chambers[keys[i]].pact.plenum
    requires forall j :: 0 <= j < i ==> !IsOpen(chambers[keys[j]])
    requires FindSocket(chambers[keys[i]].seers, p.socketId).None?
    ensures FirstOpen(keys, chambers) == Some(i)
    ensures var c := chambers[keys[i]]; !Admit(c.seers, c.pact.plenum, p).0.ok
  {
    assert IsOpen(chambers[keys[i]]);
  }

  /** `keys` without `k`, order kept. */
  function Erase(keys: seq<string>, k: string): (r: seq<string>)
    ensures forall x :: x in r <==> x in keys && x != k
    ensures |r| <= |keys|
    ensures k !in keys ==> r == keys
  {
    if keys == [] then []
    else if keys[0] == k then Erase(keys[1..], k)
    else [keys[0]] + Erase(keys[1..], k)
  }

  predicate Distinct(keys: seq<string>) {
    forall i, j :: 0 <= i < j < |keys| ==> keys[i] != keys[j]
  }

  /** Erasing a key from a duplicate-free key order leaves it duplicate-free. */
  lemma {:induction false} EraseKeepsDistinct(keys: seq<string>, k: string)
    requires Distinct(keys)
    ensures Distinct(Erase(keys, k))
  {
    if keys != [] {
      EraseKeepsDistinct(keys[1..], k);
      assert keys[0] !in keys[1..];
    }
  }

  /**
   * `Map.delete` on a duplicate-free key order: the key is cut out and the
   * keys before and after it keep their order, so a later allocation scan
   * visits the remaining chambers as before.
   */
  lemma {:induction false} EraseAt(keys: seq<string>, i: nat)
    requires Distinct(keys) && i < |keys|
    ensures Erase(keys, keys[i]) == keys[..i] + keys[i + 1..]
  {
    var k := keys[i];
    assert Distinct(keys[1..]);
    if i == 0 {
      assert k !in keys[1..];
      assert keys[..0] + keys[1..] == keys[1..];
    } else {
      assert keys[1..][i - 1] == k && keys[0] != k;
      EraseAt(keys[1..], i - 1);
      assert [keys[0]] + (keys[1..][..i - 1] + keys[1..][i..]) == keys[..i] + keys[i + 1..];
    }
  }

  /** The process-wide chamber map. `order` is the Map's insertion order, which its iteration follows. */
  class Registry {
    var chambers: map<string, Chamber>
    var order: seq<string>

    /** Every key appears once in `order`, and every chamber is stored under its own id. */
    ghost predicate Valid()
      reads this
    {
      && Distinct(order)
      && (forall k :: k in order <==> k in chambers)
      && (forall k :: k in chambers ==> chambers[k].chamberId == k)
    }

    constructor ()
      ensures Valid() && chambers == map[] && order == []
    {
      chambers := map[];
      order := [];
    }

    /** persistChamber: `chambers.set(chamber.chamberId, chamber)`; a known key keeps its position. */
    method PersistChamber(c: Chamber)
      requires Valid()
      modifies this
      ensures Valid()
      ensures chambers == old(chambers)[c.chamberId := c]
      ensures order == if c.chamberId in old(chambers) then old(order) else old(order) + [c.chamberId]
    {
      chambers := chambers[c.chamberId := c];
      if c.chamberId !in order {
        order := order + [c.chamberId];
      }
    }

    /** retrieveChamber: the chamber stored under `id`, which carries that id; null when absent. */
    function RetrieveChamber(id: string): (r: Option<Chamber>)
      requires Valid()
      reads this
      ensures r.Some? <==> id in chambers
      ensures r.Some? ==> r.value == chambers[id] && r.value.chamberId == id
    {
      if id in chambers then Some(chambers[id]) else None
    }

    /** retrieveChambers: every stored chamber once, in insertion order. */
    function RetrieveChambers(): (r: seq<Chamber>)
      requires Valid()
      reads this
      ensures |r| == |order|
      ensures forall i :: 0 <= i < |r| ==> r[i] == chambers[order[i]] && r[i].chamberId == order[i]
      ensures forall id :: id in chambers ==> chambers[id] in r
    {
      var keys, stored := order, chambers;
      seq(|keys|, i requires 0 <= i < |keys| => stored[keys[i]])
    }

    /** disposeChamber: `chambers.delete(id)`; a no-op for an unknown id. */
    method DisposeChamber(id: string)
      requires Valid()
      modifies this
      ensures Valid()
      ensures chambers == old(chambers) - {id}
      ensures order == Erase(old(order), id)
    {
      EraseKeepsDistinct(order, id);
      chambers := chambers - {id};
      order := Erase(order, id);
    }

    /**
     * provisionChamber: stores a pristine chamber under `freshId` and returns
     * it. `freshId` and `now` stand for the id built from `Date.now()` and
     * `Math.random()`; an id already in use is overwritten, as `Map.set` does.
     */
    method ProvisionChamber(freshId: string, now: int) returns (id: string)
      requires Valid()
      modifies this
      ensures Valid()
      ensures id == freshId && id in chambers && IsPristine(chambers[id])
      ensures chambers == old(chambers)[freshId := NewChamber(freshId, now)]
      ensures order == if freshId in old(chambers) then old(order) else old(order) + [freshId]
    {
      PersistChamber(NewChamber(freshId, now));
      id := freshId;
    }

    /**
     * allocateChamber: the first stored chamber, in insertion order, whose
     * roster is at most the plenum; otherwise a freshly provisioned one.
     */
    method AllocateChamber(freshId: string, now: int) returns (id: string)
      requires Valid()
      modifies this
      ensures Valid()
      ensures id in chambers
      ensures FirstOpen(old(order), old(chambers)).Some? ==>
        && id == old(order)[FirstOpen(old(order), old(chambers)).value]
        && chambers == old(chambers) && order == old(order)
      ensures FirstOpen(old(order), old(chambers)).None? ==>
        && id == freshId
        && chambers == old(chambers)[freshId := NewChamber(freshId, now)]
        && order == if freshId in old(chambers) then old(order) else old(order) + [freshId]
    {
      var all := RetrieveChambers();
      var i := 0;
      while i < |all|
        invariant 0 <= i <= |all|
        invariant forall j :: 0 <= j < i ==> !IsOpen(chambers[order[j]])
      {
        if |all[i].seers| <= all[i].pact.plenum {
          return all[i].chamberId;
        }
        i := i + 1;
      }
      id := ProvisionChamber(freshId, now);
    }

    /**
     * registerSeer: fails with "chamber not found" for an unknown chamber,
     * otherwise applies Admit to its roster.
     */
    method RegisterSeer(id: string, p: Profile) returns (r: Registration)
      requires Valid()
      modifies this
      ensures Valid() && order == old(order)
      ensures id !in old(chambers) ==>
        r == Registration(false, "chamber not found", None) && chambers == old(chambers)
      ensures id in old(chambers) ==>
        var c := old(chambers)[id];
        var admitted := Admit(c.seers, c.pact.plenum, p);
        r == admitted.0 && chambers == old(chambers)[id := c.(seers := admitted.1)]
    {
      if id !in chambers {
        return Registration(false, "chamber not found", None);
      }
      var c := chambers[id];
      var admitted := Admit(c.seers, c.pact.plenum, p);
      r := admitted.0;
      if r.ok {
        chambers := chambers[id := c.(seers := admitted.1)];
      }
    }

    /**
     * deregisterSeer: for a known chamber and socket, removes every seer on
     * that socket and disposes the chamber exactly when its roster became
     * empty; otherwise reports failure and changes nothing. The caster id is
     * left as it was.
     */
    method DeregisterSeer(id: string, socketId: string) returns (r: Departure)
      requires Valid()
      modifies this
      ensures Valid()
      ensures id !in old(chambers) || FindSocket(old(chambers)[id].seers, socketId).None? ==>
        && r == Departure(false, false, None)
        && chambers == old(chambers) && order == old(order)
      ensures id in old(chambers) && FindSocket(old(chambers)[id].seers, socketId).Some? ==>
        var c := old(chambers)[id];
        var rest := Expel(c.seers, socketId);
        && r.deregistered
        && r.seer == Some(c.seers[FindSocket(c.seers, socketId).value])
        && r.chamberDisposed == (rest == [])
        && (rest == [] ==> chambers == old(chambers) - {id} && order == Erase(old(order), id))
        && (rest != [] ==> chambers == old(chambers)[id := c.(seers := rest)] && order == old(order))
    {
      if id !in chambers {
        return Departure(false, false, None);
      }
      var c := chambers[id];
      var found := FindSocket(c.seers, socketId);
      if found.None? {
        return Departure(false, false, None);
      }
      var seer := c.seers[found.value];
      var rest := Expel(c.seers, socketId);
      PersistChamber(c.(seers := rest));
      if rest == [] {
        DisposeChamber(id);
        return Departure(true, true, Some(seer));
      }
      r := Departure(true, false, Some(seer));
    }

    /** retrieveSeers: the roster of a stored chamber, empty for an unknown one. */
    function RetrieveSeers(id: string): (r: seq<Seer>)
      reads this
      ensures id in chambers ==> r == chambers[id].seers
      ensures id !in chambers ==> r == []
    {
      if id in chambers then chambers[id].seers else []
    }
  }
}
