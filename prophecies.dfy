/**
 * The word bank behind the prophecy draw: a grimoire of enigmas filed
 * under six domains, numbered `rune_1`, `rune_2`, ... across all
 * scriptures, and a draw of one concept from each of `count` distinct
 * domains.
 */
module Prophecies {
  import opened Optional
  import opened Chance
  import opened Text

  datatype Domain = Beasts | Rituals | Artifacts | GuildsAndPersonas | Illusions | Parables

  /** `Object.keys(grimoire)`: the domains in the order the grimoire literal lists them. */
  const Domains: seq<Domain> := [Beasts, Rituals, Artifacts, GuildsAndPersonas, Illusions, Parables]

  lemma AllDomainsListed()
    ensures forall d: Domain :: d in Domains
  {
    forall d: Domain
      ensures d in Domains
    {
      var k := match d
        case Beasts => 0
        case Rituals => 1
        case Artifacts => 2
        case GuildsAndPersonas => 3
        case Illusions => 4
        case Parables => 5;
      assert Domains[k] == d;
    }
  }

  datatype Circle = Novice | Adept | Master

  datatype Scripture = Scripture(domain: Domain, circle: Circle, concepts: seq<string>)

  datatype Enigma = Enigma(enigmaId: string, concept: string, domain: Domain, circle: Circle)

  /** `Record<Domain, IEnigma[]>`: every domain is a key. */
  type Grimoire = map<Domain, seq<Enigma>>

  predicate IsGrimoire(g: Grimoire) {
    forall d: Domain :: d in g
  }

  /** The id of the k-th enigma: `rune_${k}`. */
  function RuneId(k: nat): (id: string)
    ensures |id| > 5 && id[..5] == "rune_" && id[5..] == Decimal(k)
  {
    "rune_" + Decimal(k)
  }

  lemma RuneIdInjective(k: nat, m: nat)
    requires RuneId(k) == RuneId(m)
    ensures k == m
  {
    DecimalInjective(k, m);
  }

  /** The number of concepts across the scriptures. */
  function ConceptCount(scriptures: seq<Scripture>): nat {
    if scriptures == [] then 0 else |scriptures[0].concepts| + ConceptCount(scriptures[1..])
  }

  lemma {:induction false} ConceptCountAppend(scriptures: seq<Scripture>, scroll: Scripture)
    ensures ConceptCount(scriptures + [scroll]) == ConceptCount(scriptures) + |scroll.concepts|
    decreases |scriptures|
  {
    if scriptures != [] {
      assert (scriptures + [scroll])[1..] == scriptures[1..] + [scroll];
      ConceptCountAppend(scriptures[1..], scroll);
    }
  }

  /** The scroll with every concept trimmed (`rawText.trim()`). */
  function Scrub(scroll: Scripture): (r: Scripture)
    ensures r.domain == scroll.domain && r.circle == scroll.circle
    ensures |r.concepts| == |scroll.concepts|
  {
    scroll.(concepts := TrimAll(scroll.concepts))
  }

  /** Every text trimmed. */
  function TrimAll(texts: seq<string>): (r: seq<string>)
    ensures |r| == |texts|
    ensures forall i :: 0 <= i < |texts| ==> r[i] == Trim(texts[i])
  {
    if texts == [] then [] else [Trim(texts[0])] + TrimAll(texts[1..])
  }

  /** Every scroll scrubbed. */
  function ScrubAll(scriptures: seq<Scripture>): (r: seq<Scripture>)
    ensures |r| == |scriptures|
    ensures forall k :: 0 <= k < |r| ==> r[k] == Scrub(scriptures[k])
    ensures ConceptCount(r) == ConceptCount(scriptures)
  {
    if scriptures == [] then []
    else
      var r := [Scrub(scriptures[0])] + ScrubAll(scriptures[1..]);
      assert r[1..] == ScrubAll(scriptures[1..]);
      r
  }

  lemma ScrubAllAppend(scriptures: seq<Scripture>, scroll: Scripture)
    ensures ScrubAll(scriptures + [scroll]) == ScrubAll(scriptures) + [Scrub(scroll)]
  {
  }

  /**
   * The enigmas of one scroll, numbered from `next` on. Concepts are taken
   * as they stand: Consecrated scrubs the scriptures first.
   */
  function Engrave(scroll: Scripture, next: nat): (r: seq<Enigma>)
    ensures |r| == |scroll.concepts|
    ensures forall i :: 0 <= i < |r| ==> r[i].domain == scroll.domain
  {
    seq(|scroll.concepts|, i requires 0 <= i < |scroll.concepts| =>
      Enigma(RuneId(next + i), scroll.concepts[i], scroll.domain, scroll.circle))
  }

  /** Every enigma of the scriptures, in input order, numbered from `next` on. */
  function Enigmas(scriptures: seq<Scripture>, next: nat): (r: seq<Enigma>)
    ensures |r| == ConceptCount(scriptures)
    decreases |scriptures|
  {
    if scriptures == [] then []
    else Engrave(scriptures[0], next) + Enigmas(scriptures[1..], next + |scriptures[0].concepts|)
  }

  /** The enigmas of one domain, in the order given. */
  function OfDomain(es: seq<Enigma>, d: Domain): (r: seq<Enigma>)
    ensures |r| <= |es|
  {
    if es == [] then []
    else if es[0].domain == d then [es[0]] + OfDomain(es[1..], d)
    else OfDomain(es[1..], d)
  }

  /** A domain's shelf holds exactly the enigmas of that domain. */
  lemma {:induction false} OfDomainMembers(es: seq<Enigma>, d: Domain)
    ensures forall e :: e in OfDomain(es, d) <==> e in es && e.domain == d
  {
    if es != [] {
      OfDomainMembers(es[1..], d);
      assert forall e :: e in es <==> e == es[0] || e in es[1..];
    }
  }

  /** Enigmas filed under their domains. */
  function Shelve(es: seq<Enigma>): (g: Grimoire)
    ensures IsGrimoire(g)
  {
    AllDomainsListed();
    map d: Domain | d in Domains :: OfDomain(es, d)
  }

  /**
   * consecrateGrimoire's result: every domain a key, holding the enigmas
   * of its scriptures with trimmed concepts, in input order, numbered
   * `rune_1` on across all scriptures.
   */
  function Consecrated(scriptures: seq<Scripture>): (g: Grimoire)
    ensures IsGrimoire(g)
  {
    Filed(ScrubAll(scriptures))
  }

  /** The scriptures' enigmas, numbered `rune_1` on and filed under their domains. */
  function Filed(scriptures: seq<Scripture>): (g: Grimoire)
    ensures IsGrimoire(g)
  {
    Shelve(Enigmas(scriptures, 1))
  }

  /** The grimoire consecrateGrimoire starts from: the six domains, all empty. */
  function EmptyGrimoire(): (g: Grimoire)
    ensures IsGrimoire(g) && forall d: Domain :: g[d] == []
  {
    AllDomainsListed();
    map d: Domain | d in Domains :: []
  }

  /** Stated generically, so that no element is inspected where it is used. */
  lemma ConcatNil<T>(a: seq<T>)
    ensures a + [] == a
  {
  }

  lemma {:induction false} OfDomainAppend(a: seq<Enigma>, b: seq<Enigma>, d: Domain)
    ensures OfDomain(a + b, d) == OfDomain(a, d) + OfDomain(b, d)
  {
    if a == [] {
      assert a + b == b;
      assert OfDomain(a, d) == [];
    } else {
      var ab := a + b;
      assert ab != [] && ab[0] == a[0] && ab[1..] == a[1..] + b;
      OfDomainAppend(a[1..], b, d);
      if a[0].domain == d {
        ConcatAssoc([a[0]], OfDomain(a[1..], d), OfDomain(b, d));
      }
    }
  }

  lemma {:induction false} OfDomainWhole(es: seq<Enigma>, d: Domain)
    requires forall i :: 0 <= i < |es| ==> es[i].domain == d
    ensures OfDomain(es, d) == es
  {
    if es != [] {
      OfDomainWhole(es[1..], d);
    }
  }

  lemma {:induction false} OfDomainNone(es: seq<Enigma>, d: Domain)
    requires forall i :: 0 <= i < |es| ==> es[i].domain != d
    ensures OfDomain(es, d) == []
  {
    if es != [] {
      OfDomainNone(es[1..], d);
    }
  }

  lemma OfDomainEngrave(scroll: Scripture, next: nat, d: Domain)
    ensures OfDomain(Engrave(scroll, next), d) == if scroll.domain == d then Engrave(scroll, next) else []
  {
    var es := Engrave(scroll, next);
    if scroll.domain == d {
      OfDomainWhole(es, d);
    } else {
      OfDomainNone(es, d);
    }
  }

  lemma EnigmasUnfold(scriptures: seq<Scripture>, next: nat)
    requires scriptures != []
    ensures Enigmas(scriptures, next) ==
      Engrave(scriptures[0], next) + Enigmas(scriptures[1..], next + |scriptures[0].concepts|)
  {
  }

  lemma ConcatAssoc<T>(a: seq<T>, b: seq<T>, c: seq<T>)
    ensures a + (b + c) == (a + b) + c
  {
  }

  lemma {:induction false} EnigmasAppend(scriptures: seq<Scripture>, scroll: Scripture, next: nat)
    ensures Enigmas(scriptures + [scroll], next) ==
      Enigmas(scriptures, next) + Engrave(scroll, next + ConceptCount(scriptures))
    decreases |scriptures|
  {
    var longer := scriptures + [scroll];
    EnigmasUnfold(longer, next);
    if scriptures == [] {
      assert longer == [scroll] && longer[1..] == [];
      ConcatNil(Engrave(scroll, next));
    } else {
      var head, rest := scriptures[0], scriptures[1..];
      var k := next + |head.concepts|;
      assert longer[0] == head && longer[1..] == rest + [scroll];
      EnigmasUnfold(scriptures, next);
      EnigmasAppend(rest, scroll, k);
      ConcatAssoc(Engrave(head, next), Enigmas(rest, k), Engrave(scroll, k + ConceptCount(rest)));
    }
  }

  /** Two grimoires with the same shelves are the same. */
  lemma SameShelves(a: Grimoire, b: Grimoire)
    requires IsGrimoire(a) && IsGrimoire(b)
    requires forall d: Domain :: a[d] == b[d]
    ensures a == b
  {
  }

  lemma FiledAt(scriptures: seq<Scripture>, d: Domain)
    ensures Filed(scriptures)[d] == OfDomain(Enigmas(scriptures, 1), d)
  {
    AllDomainsListed();
  }

  /** One more scroll adds its enigmas to the end of its own domain's enigmas only. */
  lemma ShelfAppends(scriptures: seq<Scripture>, scroll: Scripture, d: Domain)
    ensures OfDomain(Enigmas(scriptures + [scroll], 1), d) == OfDomain(Enigmas(scriptures, 1), d) +
      (if scroll.domain == d then Engrave(scroll, 1 + ConceptCount(scriptures)) else [])
  {
    var appended := Engrave(scroll, 1 + ConceptCount(scriptures));
    EnigmasAppend(scriptures, scroll, 1);
    OfDomainAppend(Enigmas(scriptures, 1), appended, d);
    OfDomainEngrave(scroll, 1 + ConceptCount(scriptures), d);
  }

  lemma FiledAppendsAt(scriptures: seq<Scripture>, scroll: Scripture, d: Domain)
    ensures Filed(scriptures + [scroll])[d] == Filed(scriptures)[d] +
      (if scroll.domain == d then Engrave(scroll, 1 + ConceptCount(scriptures)) else [])
  {
    FiledAt(scriptures + [scroll], d);
    FiledAt(scriptures, d);
    ShelfAppends(scriptures, scroll, d);
  }

  /** A grimoire whose shelves are g's, one of them extended, is g with that shelf updated. */
  lemma GrowShelf(a: Grimoire, g: Grimoire, k: Domain, extra: seq<Enigma>)
    requires IsGrimoire(a) && IsGrimoire(g)
    requires forall d: Domain :: a[d] == g[d] + (if d == k then extra else [])
    ensures a == g[k := g[k] + extra]
  {
    var grown := g[k := g[k] + extra];
    forall d: Domain
      ensures a[d] == grown[d]
    {
      if d != k {
        ConcatNil(g[d]);
      }
    }
    SameShelves(a, grown);
  }

  lemma FiledAppends(scriptures: seq<Scripture>, scroll: Scripture)
    ensures Filed(scriptures + [scroll]) ==
      var g := Filed(scriptures);
      g[scroll.domain := g[scroll.domain] + Engrave(scroll, 1 + ConceptCount(scriptures))]
  {
    forall d: Domain
      ensures Filed(scriptures + [scroll])[d] == Filed(scriptures)[d] +
        (if d == scroll.domain then Engrave(scroll, 1 + ConceptCount(scriptures)) else [])
    {
      FiledAppendsAt(scriptures, scroll, d);
    }
    GrowShelf(Filed(scriptures + [scroll]), Filed(scriptures), scroll.domain, Engrave(scroll, 1 + ConceptCount(scriptures)));
  }

  /** The i-th enigma is `rune_{next+i}`: ids are consecutive across all scriptures. */
  lemma {:induction false} EnigmaIdsConsecutive(scriptures: seq<Scripture>, next: nat)
    ensures forall i :: 0 <= i < |Enigmas(scriptures, next)| ==> Enigmas(scriptures, next)[i].enigmaId == RuneId(next + i)
    decreases |scriptures|
  {
    if scriptures != [] {
      EnigmaIdsConsecutive(scriptures[1..], next + |scriptures[0].concepts|);
    }
  }

  /** The enigma is a concept of some scroll and carries that scroll's domain and circle. */
  predicate FromScrolls(e: Enigma, scriptures: seq<Scripture>) {
    exists k, j :: 0 <= k < |scriptures| && 0 <= j < |scriptures[k].concepts| &&
      e.concept == scriptures[k].concepts[j] && e.domain == scriptures[k].domain && e.circle == scriptures[k].circle
  }

  lemma FromLaterScrolls(e: Enigma, scriptures: seq<Scripture>)
    requires scriptures != [] && FromScrolls(e, scriptures[1..])
    ensures FromScrolls(e, scriptures)
  {
    var rest := scriptures[1..];
    var k, j :| 0 <= k < |rest| && 0 <= j < |rest[k].concepts| &&
      e.concept == rest[k].concepts[j] && e.domain == rest[k].domain && e.circle == rest[k].circle;
    assert rest[k] == scriptures[k + 1];
  }

  lemma FromFirstScroll(e: Enigma, scriptures: seq<Scripture>, next: nat)
    requires scriptures != [] && e in Engrave(scriptures[0], next)
    ensures FromScrolls(e, scriptures)
  {
    var head := Engrave(scriptures[0], next);
    var j :| 0 <= j < |head| && head[j] == e;
    assert e.concept == scriptures[0].concepts[j];
  }

  /** Every enigma is a concept of some scroll and carries that scroll's domain and circle. */
  lemma {:induction false} EnigmasFollowScrolls(scriptures: seq<Scripture>, next: nat)
    ensures forall e :: e in Enigmas(scriptures, next) ==> FromScrolls(e, scriptures)
    decreases |scriptures|
  {
    if scriptures != [] {
      var head := Engrave(scriptures[0], next);
      var tail := Enigmas(scriptures[1..], next + |scriptures[0].concepts|);
      EnigmasFollowScrolls(scriptures[1..], next + |scriptures[0].concepts|);
      forall e | e in Enigmas(scriptures, next)
        ensures FromScrolls(e, scriptures)
      {
        if e in head {
          FromFirstScroll(e, scriptures, next);
        } else {
          assert e in tail;
          FromLaterScrolls(e, scriptures);
        }
      }
    }
  }

  /**
   * Every enigma of a consecrated grimoire sits under its own domain and
   * is the trimmed text of a concept of a scroll of that domain, with
   * that scroll's circle.
   */
  lemma ConsecratedFollowsScrolls(scriptures: seq<Scripture>)
    ensures forall d: Domain, e :: e in Consecrated(scriptures)[d] ==> Traced(scriptures, d, e)
  {
    forall d: Domain, e | e in Consecrated(scriptures)[d]
      ensures Traced(scriptures, d, e)
    {
      ShelvedFollowsScrolls(scriptures, d, e);
    }
  }

  /**
   * The enigma sits under its own domain and is the trimmed text of a
   * concept of a scroll of that domain, with that scroll's circle.
   */
  predicate Traced(scriptures: seq<Scripture>, d: Domain, e: Enigma) {
    && e.domain == d
    && exists k, j :: (0 <= k < |scriptures| && 0 <= j < |scriptures[k].concepts| &&
      e.concept == Trim(scriptures[k].concepts[j]) &&
      scriptures[k].domain == d && e.circle == scriptures[k].circle)
  }

  lemma ShelvedFollowsScrolls(scriptures: seq<Scripture>, d: Domain, e: Enigma)
    requires e in Consecrated(scriptures)[d]
    ensures Traced(scriptures, d, e)
  {
    var clean := ScrubAll(scriptures);
    FiledAt(clean, d);
    OfDomainMembers(Enigmas(clean, 1), d);
    EnigmasFollowScrolls(clean, 1);
    assert FromScrolls(e, clean);
    var k, j :| 0 <= k < |clean| && 0 <= j < |clean[k].concepts| &&
      e.concept == clean[k].concepts[j] && e.domain == clean[k].domain && e.circle == clean[k].circle;
    assert clean[k] == Scrub(scriptures[k]);
    assert clean[k].concepts[j] == Trim(scriptures[k].concepts[j]);
  }

  /** No two enigmas of the list share an id. */
  predicate DistinctIds(es: seq<Enigma>) {
    forall i, j :: 0 <= i < j < |es| ==> es[i].enigmaId != es[j].enigmaId
  }

  lemma {:induction false} OfDomainKeepsDistinct(es: seq<Enigma>, d: Domain)
    requires DistinctIds(es)
    ensures DistinctIds(OfDomain(es, d))
  {
    if es != [] {
      OfDomainKeepsDistinct(es[1..], d);
      OfDomainMembers(es[1..], d);
      if es[0].domain == d {
        var r := OfDomain(es, d);
        forall j | 0 < j < |r|
          ensures r[0].enigmaId != r[j].enigmaId
        {
          assert r[j] in es[1..];
        }
      }
    }
  }

  /** No two places of the grimoire hold enigmas with the same id. */
  predicate UniqueIds(g: Grimoire) {
    forall d1, d2, i, j ::
      d1 in g && d2 in g && 0 <= i < |g[d1]| && 0 <= j < |g[d2]| && (d1 != d2 || i != j)
      ==> g[d1][i].enigmaId != g[d2][j].enigmaId
  }

  /** Ids numbered consecutively are pairwise distinct. */
  lemma EnigmaIdsDistinct(scriptures: seq<Scripture>)
    ensures DistinctIds(Enigmas(scriptures, 1))
  {
    var es := Enigmas(scriptures, 1);
    EnigmaIdsConsecutive(scriptures, 1);
    forall i, j | 0 <= i < j < |es|
      ensures es[i].enigmaId != es[j].enigmaId
    {
      assert DigitsValue(es[i].enigmaId[5..]) == 1 + i && DigitsValue(es[j].enigmaId[5..]) == 1 + j;
    }
  }

  /** Enigmas of different domains, taken from a list with distinct ids, have different ids. */
  lemma AcrossDomains(es: seq<Enigma>, d1: Domain, d2: Domain, i: nat, j: nat)
    requires DistinctIds(es) && d1 != d2
    requires i < |OfDomain(es, d1)| && j < |OfDomain(es, d2)|
    ensures OfDomain(es, d1)[i].enigmaId != OfDomain(es, d2)[j].enigmaId
  {
    var x, y := OfDomain(es, d1)[i], OfDomain(es, d2)[j];
    OfDomainMembers(es, d1);
    OfDomainMembers(es, d2);
    assert x in OfDomain(es, d1) && y in OfDomain(es, d2);
    var a :| 0 <= a < |es| && es[a] == x;
    var b :| 0 <= b < |es| && es[b] == y;
    assert a != b;
    if a < b {
      assert es[a].enigmaId != es[b].enigmaId;
    } else {
      assert es[b].enigmaId != es[a].enigmaId;
    }
  }

  /** Filed scriptures never hold two enigmas with the same id. */
  lemma FiledIdsUnique(scriptures: seq<Scripture>)
    ensures UniqueIds(Filed(scriptures))
  {
    var es := Enigmas(scriptures, 1);
    var g: Grimoire := Filed(scriptures);
    EnigmaIdsDistinct(scriptures);
    forall d1: Domain, d2: Domain, i: int, j: int |
      d1 in g && d2 in g && 0 <= i < |g[d1]| && 0 <= j < |g[d2]| && (d1 != d2 || i != j)
      ensures g[d1][i].enigmaId != g[d2][j].enigmaId
    {
      FiledAt(scriptures, d1);
      FiledAt(scriptures, d2);
      if d1 == d2 {
        OfDomainKeepsDistinct(es, d1);
      } else {
        AcrossDomains(es, d1, d2, i, j);
      }
    }
  }

  /** The ids of a consecrated grimoire are `rune_1` ... `rune_N`, each used once. */
  lemma ConsecratedIdsUnique(scriptures: seq<Scripture>)
    ensures UniqueIds(Consecrated(scriptures))
  {
    FiledIdsUnique(ScrubAll(scriptures));
  }

  /** The number of enigmas filed in a grimoire. */
  function Total(g: Grimoire): nat
    requires IsGrimoire(g)
  {
    |g[Beasts]| + |g[Rituals]| + |g[Artifacts]| + |g[GuildsAndPersonas]| + |g[Illusions]| + |g[Parables]|
  }

  lemma {:induction false} ShelveKeepsCount(es: seq<Enigma>)
    ensures Total(Shelve(es)) == |es|
  {
    if es != [] {
      ShelveKeepsCount(es[1..]);
    }
  }

  /** The grimoire holds exactly as many enigmas as the scriptures have concepts. */
  lemma ConsecratedTotal(scriptures: seq<Scripture>)
    ensures Total(Consecrated(scriptures)) == ConceptCount(scriptures)
  {
    ShelveKeepsCount(Enigmas(ScrubAll(scriptures), 1));
  }

  /**
   * The `scroll.concepts.map(...)` of consecrateGrimoire: each concept
   * trimmed and numbered by the running counter, starting at `first`.
   */
  method EngraveScroll(scroll: Scripture, first: nat) returns (enigmas: seq<Enigma>, runeSequence: nat)
    ensures enigmas == Engrave(Scrub(scroll), first)
    ensures runeSequence == first + |scroll.concepts|
  {
    ghost var target := Engrave(Scrub(scroll), first);
    enigmas := [];
    runeSequence := first;
    var i := 0;
    while i < |scroll.concepts|
      invariant 0 <= i <= |scroll.concepts|
      invariant runeSequence == first + i
      invariant enigmas == target[..i]
    {
      EngraveAt(scroll, first, i);
      PrefixGrows(target, i);
      enigmas := enigmas + [Enigma(RuneId(runeSequence), Trim(scroll.concepts[i]), scroll.domain, scroll.circle)];
      runeSequence := runeSequence + 1;
      i := i + 1;
    }
    PrefixWhole(target);
  }

  lemma EngraveAt(scroll: Scripture, first: nat, i: nat)
    requires i < |scroll.concepts|
    ensures Engrave(Scrub(scroll), first)[i] ==
      Enigma(RuneId(first + i), Trim(scroll.concepts[i]), scroll.domain, scroll.circle)
  {
  }

  lemma PrefixGrows<T>(a: seq<T>, i: nat)
    requires i < |a|
    ensures a[..i + 1] == a[..i] + [a[i]]
  {
  }

  lemma PrefixWhole<T>(a: seq<T>)
    ensures a[..|a|] == a
  {
  }

  /** Filing no scriptures gives the empty grimoire consecrateGrimoire starts from. */
  lemma FiledNothing()
    ensures Filed([]) == EmptyGrimoire()
  {
    forall d: Domain
      ensures Filed([])[d] == EmptyGrimoire()[d]
    {
      FiledAt([], d);
    }
    SameShelves(Filed([]), EmptyGrimoire());
  }

  /** One turn of consecrateGrimoire's `forEach`: the next (trimmed) scroll is filed and counted. */
  lemma ConsecrateStep(clean: seq<Scripture>, s: nat, scroll: Scripture)
    requires s < |clean| && scroll == clean[s]
    ensures var g, appended := Filed(clean[..s]), Engrave(scroll, 1 + ConceptCount(clean[..s]));
      Filed(clean[..s + 1]) == g[scroll.domain := g[scroll.domain] + appended]
    ensures ConceptCount(clean[..s + 1]) == ConceptCount(clean[..s]) + |scroll.concepts|
  {
    PrefixGrows(clean, s);
    FiledAppends(clean[..s], scroll);
    ConceptCountAppend(clean[..s], scroll);
  }

  /**
   * consecrateGrimoire: the six domains start empty; each scroll's
   * enigmas are pushed onto its domain, the counter running on across
   * scrolls.
   */
  method ConsecrateGrimoire(scriptures: seq<Scripture>) returns (g: Grimoire)
    ensures g == Consecrated(scriptures)
  {
    ghost var clean := ScrubAll(scriptures);
    g := EmptyGrimoire();
    var runeSequence: nat := 1;
    var s := 0;
    assert clean[..0] == [];
    FiledNothing();
    while s < |scriptures|
      invariant 0 <= s <= |scriptures|
      invariant g == Filed(clean[..s])
      invariant runeSequence == 1 + ConceptCount(clean[..s])
    {
      var scroll := scriptures[s];
      var enigmas;
      assert clean[s] == Scrub(scroll);
      ConsecrateStep(clean, s, Scrub(scroll));
      enigmas, runeSequence := EngraveScroll(scroll, runeSequence);
      g := g[scroll.domain := g[scroll.domain] + enigmas];
      s := s + 1;
    }
    PrefixWhole(clean);
  }

  /** No domain is selected twice. */
  predicate DistinctDomains(ds: seq<Domain>) {
    forall i, j :: 0 <= i < j < |ds| ==> ds[i] != ds[j]
  }

  /** A list of distinct domains drawn from a pool is no longer than the pool. */
  lemma {:induction false} DistinctWithin(ds: seq<Domain>, pool: set<Domain>)
    requires DistinctDomains(ds) && forall i :: 0 <= i < |ds| ==> ds[i] in pool
    ensures |ds| <= |pool|
  {
    if ds != [] {
      forall i | 0 <= i < |ds[1..]|
        ensures ds[1..][i] in pool - {ds[0]}
      {
        assert ds[1..][i] == ds[i + 1] != ds[0];
      }
      DistinctWithin(ds[1..], pool - {ds[0]});
    }
  }

  /** There are six domains, so at most six distinct ones. */
  lemma AtMostSixDomains(ds: seq<Domain>)
    requires DistinctDomains(ds)
    ensures |ds| <= |Domains|
  {
    var pool := {Beasts, Rituals, Artifacts, GuildsAndPersonas, Illusions, Parables};
    assert |pool| == 6;
    forall i | 0 <= i < |ds|
      ensures ds[i] in pool
    {
      match ds[i]
      case Beasts =>
      case Rituals =>
      case Artifacts =>
      case GuildsAndPersonas =>
      case Illusions =>
      case Parables =>
    }
    DistinctWithin(ds, pool);
  }

  /**
   * The domain draw of divineProphecies' `while` loop: each roll picks a
   * domain, appended when not selected yet, until `count` are selected.
   * None when the rolls run out first, where the source would go on
   * drawing. Also returns the rolls left over.
   */
  function Select(selected: seq<Domain>, count: int, rolls: seq<real>): (r: Option<(seq<Domain>, seq<real>)>)
    requires AllRolls(rolls)
    ensures r.Some? ==> |r.value.0| == (if |selected| < count then count else |selected|)
    ensures r.Some? ==> |selected| <= |r.value.0| && r.value.0[..|selected|] == selected
    ensures r.Some? && DistinctDomains(selected) ==> DistinctDomains(r.value.0)
    ensures r.Some? ==> |r.value.1| <= |rolls| && r.value.1 == rolls[|rolls| - |r.value.1|..]
    decreases |rolls|
  {
    if |selected| >= count then Some((selected, rolls))
    else if rolls == [] then None
    else
      var d := Domains[PickIndex(rolls[0], |Domains|)];
      var next := if d in selected then selected else selected + [d];
      assert next[..|selected|] == selected;
      assert DistinctDomains(selected) ==> DistinctDomains(next);
      var r := Select(next, count, rolls[1..]);
      assert r.Some? ==> r.value.0[..|selected|] == next[..|selected|];
      r
  }

  /** `list[Math.floor(roll * list.length)]?.concept`: nothing for an empty list. */
  function Pick(list: seq<Enigma>, roll: real): (r: Option<string>)
    requires IsRoll(roll)
    ensures r.None? <==> list == []
    ensures r.Some? ==> exists e :: e in list && e.concept == r.value
  {
    if list == [] then None
    else
      var e := list[PickIndex(roll, |list|)];
      assert e in list;
      Some(e.concept)
  }

  /** The `selectedDomains.map(...)` of divineProphecies: one pick per domain, one roll each. */
  function Reveal(g: Grimoire, ds: seq<Domain>, rolls: seq<real>): (r: seq<Option<string>>)
    requires IsGrimoire(g) && AllRolls(rolls) && |ds| <= |rolls|
    ensures |r| == |ds|
    ensures forall i :: 0 <= i < |ds| ==> r[i] == Pick(g[ds[i]], rolls[i])
    ensures DrawnFrom(g, ds, r)
  {
    seq(|ds|, i requires 0 <= i < |ds| => Pick(g[ds[i]], rolls[i]))
  }

  /**
   * divineProphecies over a stream of rolls: the domain draw, then one
   * concept from each selected domain. None when the stream runs out.
   */
  function Divine(g: Grimoire, count: int, rolls: seq<real>): Option<seq<Option<string>>>
    requires IsGrimoire(g) && AllRolls(rolls)
  {
    match Select([], count, rolls)
    case None => None
    case Some((ds, rest)) =>
      RollsFrom(rolls, |rolls| - |rest|);
      if |rest| < |ds| then None else Some(Reveal(g, ds, rest))
  }

  /** The i-th prophecy is a concept of the i-th domain's shelf, or nothing when that shelf is empty. */
  predicate DrawnFrom(g: Grimoire, ds: seq<Domain>, r: seq<Option<string>>)
    requires IsGrimoire(g)
  {
    && |ds| == |r|
    && forall i :: 0 <= i < |r| ==>
      && (r[i].None? <==> g[ds[i]] == [])
      && (r[i].Some? ==> exists e :: e in g[ds[i]] && e.concept == r[i].value)
  }

  /**
   * A draw that completes has `count` entries (none for a count below
   * one); they come from pairwise distinct domains, and each entry is a
   * concept of its domain, or nothing exactly when that domain is empty.
   */
  lemma DivineDrawsDistinctDomains(g: Grimoire, count: int, rolls: seq<real>)
    requires IsGrimoire(g) && AllRolls(rolls) && Divine(g, count, rolls).Some?
    ensures var r := Divine(g, count, rolls).value;
      && |r| == (if count < 0 then 0 else count)
      && (exists ds :: DistinctDomains(ds) && DrawnFrom(g, ds, r))
  {
    var ds := Select([], count, rolls).value.0;
    assert DistinctDomains(ds) && DrawnFrom(g, ds, Divine(g, count, rolls).value);
  }

  /** More than six distinct domains are never found: the source's loop never ends. */
  lemma AboveSixNeverEnds(g: Grimoire, count: int, rolls: seq<real>)
    requires IsGrimoire(g) && AllRolls(rolls) && count > |Domains|
    ensures Divine(g, count, rolls).None?
  {
    match Select([], count, rolls)
    case None =>
    case Some((ds, rest)) =>
      AtMostSixDomains(ds);
  }

  /** The rolls 0, 1/6, ..., 5/6: they pick every domain in key order. */
  const Sweep: seq<real> := [0.0, 1.0 / 6.0, 2.0 / 6.0, 3.0 / 6.0, 4.0 / 6.0, 5.0 / 6.0]

  lemma SweepPicks(k: nat)
    requires k < 6
    ensures IsRoll(Sweep[k]) && PickIndex(Sweep[k], 6) == k
  {
    assert Sweep[k] * 6.0 == k as real;
  }

  lemma DomainsDistinct()
    ensures DistinctDomains(Domains)
  {
  }

  /** The k-th sweep roll selects the k-th domain, which is new. */
  lemma SweepStep(k: nat, count: int)
    requires k < count && k < 6
    ensures AllRolls(Sweep[k..]) && AllRolls(Sweep[k + 1..])
    ensures Select(Domains[..k], count, Sweep[k..]) == Select(Domains[..k + 1], count, Sweep[k + 1..])
  {
    forall i | 0 <= i < 6 ensures IsRoll(Sweep[i]) { SweepPicks(i); }
    SweepPicks(k);
    SelectStep(Domains[..k], count, Sweep, k);
    DomainsDistinct();
    assert Domains[k] !in Domains[..k];
    PrefixGrows(Domains, k);
  }

  /**
   * From the k-th sweep roll on, the draw takes the domains in key order
   * until `count` are selected, one roll each, and leaves the rest.
   */
  lemma {:induction false} SweepSelects(k: nat, count: int)
    requires k <= 6 && count <= 6 && AllRolls(Sweep[k..])
    ensures var m := if k < count then count else k;
      Select(Domains[..k], count, Sweep[k..]) == Some((Domains[..m], Sweep[m..]))
    decreases 6 - k
  {
    if k < count {
      SweepStep(k, count);
      SweepSelects(k + 1, count);
    }
  }

  /** For up to six domains some stream of rolls completes the draw. */
  lemma UpToSixCanEnd(g: Grimoire, count: int)
    requires IsGrimoire(g) && count <= |Domains|
    ensures exists rolls :: AllRolls(rolls) && Divine(g, count, rolls).Some?
  {
    SweepTwiceEnds(g, count);
  }

  /** Two sweeps: the first selects the domains in key order, the second pays for the picks. */
  lemma SweepTwiceEnds(g: Grimoire, count: int)
    requires IsGrimoire(g) && count <= |Domains|
    ensures AllRolls(Sweep + Sweep) && Divine(g, count, Sweep + Sweep).Some?
  {
    var m := if 0 < count then count else 0;
    SweepRolls();
    assert Domains[..0] == [] && Sweep[0..] == Sweep;
    SweepSelects(0, count);
    RollsExtend([], count, Sweep, Sweep);
    RollsFrom(Sweep, m);
    RollsAppend(Sweep[m..], Sweep);
    DivineAfterSelect(g, count, Sweep + Sweep, Domains[..m], Sweep[m..] + Sweep);
  }

  lemma SweepRolls()
    ensures AllRolls(Sweep)
  {
    forall k | 0 <= k < 6 ensures IsRoll(Sweep[k]) { SweepPicks(k); }
  }

  /** Rolls added after a completed draw are left over for the picks. */
  lemma {:induction false} RollsExtend(selected: seq<Domain>, count: int, rolls: seq<real>, more: seq<real>)
    requires AllRolls(rolls) && AllRolls(more) && Select(selected, count, rolls).Some?
    ensures AllRolls(rolls + more)
    ensures Select(selected, count, rolls + more) ==
      Some((Select(selected, count, rolls).value.0, Select(selected, count, rolls).value.1 + more))
    decreases |rolls|
  {
    RollsAppend(rolls, more);
    if |selected| < count {
      var longer := rolls + more;
      assert rolls[0..] == rolls && longer[0..] == longer;
      assert longer[0] == rolls[0] && longer[1..] == rolls[1..] + more;
      SelectStep(selected, count, rolls, 0);
      SelectStep(selected, count, longer, 0);
      var d := Domains[PickIndex(rolls[0], |Domains|)];
      RollsExtend(if d in selected then selected else selected + [d], count, rolls[1..], more);
    }
  }

  /** One turn of the domain draw consumes one roll. */
  lemma SelectStep(selected: seq<Domain>, count: int, rolls: seq<real>, pos: nat)
    requires AllRolls(rolls) && pos < |rolls| && |selected| < count
    ensures AllRolls(rolls[pos + 1..])
    ensures var d := Domains[PickIndex(rolls[pos], |Domains|)];
      Select(selected, count, rolls[pos..]) ==
      Select(if d in selected then selected else selected + [d], count, rolls[pos + 1..])
  {
    RollsFrom(rolls, pos);
    RollsFrom(rolls, pos + 1);
    assert rolls[pos..][1..] == rolls[pos + 1..];
  }

  lemma DivineAfterSelect(g: Grimoire, count: int, rolls: seq<real>, ds: seq<Domain>, rest: seq<real>)
    requires IsGrimoire(g) && AllRolls(rolls) && AllRolls(rest) && |ds| <= |rest|
    requires Select([], count, rolls) == Some((ds, rest))
    ensures Divine(g, count, rolls) == Some(Reveal(g, ds, rest))
  {
  }

  /**
   * divineProphecies: the `while` loop draws domains until `count`
   * distinct ones are selected, then one concept is picked from each.
   */
  method DivineProphecies(g: Grimoire, count: int, rolls: seq<real>) returns (r: Option<seq<Option<string>>>)
    requires IsGrimoire(g) && AllRolls(rolls)
    ensures r == Divine(g, count, rolls)
  {
    var selected: seq<Domain> := [];
    var pos := 0;
    assert rolls[pos..] == rolls;
    while |selected| < count
      invariant 0 <= pos <= |rolls| && AllRolls(rolls[pos..])
      invariant Select(selected, count, rolls[pos..]) == Select([], count, rolls)
      decreases |rolls| - pos
    {
      if pos == |rolls| {
        return None;
      }
      var d := Domains[PickIndex(rolls[pos], |Domains|)];
      SelectStep(selected, count, rolls, pos);
      if d !in selected {
        selected := selected + [d];
      }
      pos := pos + 1;
    }
    var rest := rolls[pos..];
    assert Select([], count, rolls) == Some((selected, rest));
    if |rest| < |selected| {
      return None;
    }
    DivineAfterSelect(g, count, rolls, selected, rest);
    var prophecies := Reveal(g, selected, rest);
    return Some(prophecies);
  }

  /** The six raw concept lists the fixed scriptures are built from. */
  datatype Lexicon = Lexicon(
    animals: seq<string>,
    actions: seq<string>,
    objects: seq<string>,
    professions: seq<string>,
    movies: seq<string>,
    idioms: seq<string>)

  /**
   * `ancientScriptures`: one scroll per domain, in key order; beasts and
   * rituals are novice, artifacts and guilds adept, illusions and parables
   * master; each scroll holds its raw list.
   */
  function AncientScriptures(lex: Lexicon): (r: seq<Scripture>)
    ensures |r| == |Domains| && forall k :: 0 <= k < |r| ==> r[k].domain == Domains[k]
    ensures forall k :: 0 <= k < |r| ==> r[k].circle == (if k < 2 then Novice else if k < 4 then Adept else Master)
    ensures [r[0].concepts, r[1].concepts, r[2].concepts, r[3].concepts, r[4].concepts, r[5].concepts]
         == [lex.animals, lex.actions, lex.objects, lex.professions, lex.movies, lex.idioms]
  {
    [ Scripture(Beasts, Novice, lex.animals),
      Scripture(Rituals, Novice, lex.actions),
      Scripture(Artifacts, Adept, lex.objects),
      Scripture(GuildsAndPersonas, Adept, lex.professions),
      Scripture(Illusions, Master, lex.movies),
      Scripture(Parables, Master, lex.idioms) ]
  }

  /** The fixed grimoire holds one enigma for every word of the six lists. */
  lemma AncientTotal(lex: Lexicon)
    ensures Total(Consecrated(AncientScriptures(lex))) ==
      |lex.animals| + |lex.actions| + |lex.objects| + |lex.professions| + |lex.movies| + |lex.idioms|
  {
    ConsecratedTotal(AncientScriptures(lex));
    AncientCount(lex);
  }

  lemma AncientCount(lex: Lexicon)
    ensures ConceptCount(AncientScriptures(lex)) ==
      |lex.animals| + |lex.actions| + |lex.objects| + |lex.professions| + |lex.movies| + |lex.idioms|
  {
    var r := AncientScriptures(lex);
    assert r[6..] == [];
    assert ConceptCount(r[5..]) == |lex.idioms| + ConceptCount(r[6..]);
    assert ConceptCount(r[4..]) == |lex.movies| + ConceptCount(r[5..]) by { assert r[4..][1..] == r[5..]; }
    assert ConceptCount(r[3..]) == |lex.professions| + ConceptCount(r[4..]) by { assert r[3..][1..] == r[4..]; }
    assert ConceptCount(r[2..]) == |lex.objects| + ConceptCount(r[3..]) by { assert r[2..][1..] == r[3..]; }
    assert ConceptCount(r[1..]) == |lex.actions| + ConceptCount(r[2..]) by { assert r[1..][1..] == r[2..]; }
  }

  /**
   * summonProphecies: divineProphecies over the grimoire consecrated from
   * the fixed scriptures, three prophecies unless told otherwise.
   */
  method SummonProphecies(lex: Lexicon, rolls: seq<real>, count: int := 3) returns (r: Option<seq<Option<string>>>)
    requires AllRolls(rolls)
    ensures r == Divine(Consecrated(AncientScriptures(lex)), count, rolls)
  {
    var grimoire := ConsecrateGrimoire(AncientScriptures(lex));
    r := DivineProphecies(grimoire, count, rolls);
  }
}
