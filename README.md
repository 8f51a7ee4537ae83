# sketchbee-ws game-session engine, modelled in Dafny

This project models the in-memory core of the sketchbee-ws drawing-and-guessing
game server. It covers the chamber store, three iterations of the round engine
and the prophecy deck.

- **Chamber store** (`ChamberStore`, in `chamber.dfy`) is the process-wide map of
  chambers. It covers:
  - allocating a chamber, which hands out the first chamber whose roster is
    not over the plenum, or else provisions a fresh one;
  - registering and deregistering seers;
  - disposing of a chamber once its roster empties.
- **Ritual iteration** (`Ritual`): `prepareRitualCycle` picks a caster and
  offers three prophecies. `manifestEnigma` sets the secret and its masked
  omen. `attemptDecipher` scores a guess at 80 for the guesser and 15 for the
  caster. `perceiveRitual` gives each viewer a masked view.
- **Rune iteration** (`Rune`):
  - casting and banishing sigils (stroke segments);
  - an `attemptDecipher` that only marks the guesser, pays the caster and
    then runs `assessRitualState`, which moves the chamber to REVEALING once
    every non-caster has unveiled;
  - a view that shows the enigma only in REVEALING.
- **Game iteration** (`Game`): rooms keyed by chamber id, each holding a
  `players` Map keyed by socket id, with
  `addStroke`, `clearCanvas`, `startGame`, `startNextTurn`,
  `setWordAndStartRound`, `processGuess` (50 points plus 10 for the drawer),
  `checkIfRoundShouldEnd` and `getGameState`.
- **Prophecy deck** (`Prophecies`): `consecrateGrimoire` files scriptures
  into a six-domain grimoire. It numbers every concept `rune_1`, `rune_2`,
  and so on. `divineProphecies` draws distinct domains at random and one
  concept from each. `summonProphecies` draws three from the fixed
  scriptures.

Shared pieces:
- `Optional`: the Option type;
- `Chance`: randomness;
- `Text`: `trim`, `toLowerCase`, `includes`, the masked hint and decimal numerals;
- `Guess`: the guess normalisation the services share;
- `Rites`: what the ritual and rune services share.

Effects become parameters:
- each `Math.random()` is a caller-supplied roll in [0, 1), and
  `Math.floor(roll * n)` is `Chance.PickIndex`;
- `Date.now()` is a `now` parameter;
- the generated chamber id is a caller-supplied `freshId`.

State that the source mutates in place is a class:
- `ChamberStore.Registry` holds the chamber map and its insertion order, which
  is the iteration order of a JavaScript `Map`;
- `Game.Table` holds the rooms game.service reads.

Chambers, rooms and seers are values; changing one field of a stored chamber
replaces its map entry. Each state-changing method is proved equal to a pure
function of the old state, and the properties are proved about those functions.

Quirks of the source that the model keeps on purpose:
- `allocateChamber` tests `seers.length <= plenum`, so it can hand out a full
  chamber that `registerSeer` then refuses (`FullChamberIsStillAllocated`).
- `find` by seer id returns the first match, so a second seer with the same
  seer id is never found and can never unveil.
- In the game iteration the drawer's bonus is looked up by key after the
  guesser's score is updated. The bonus touches only the cumulative score.
- With no non-drawer, `checkIfRoundShouldEnd` ends the round, because `every`
  on an empty list is true. The rune iteration's `assessRitualState`
  additionally demands at least one guesser.
- The near-miss test of the game iteration has no `Math.abs`.
  `NearGuessAgreesWithRitual` proves this changes nothing.
- `startGame` builds a reset copy of the room and never stores it. Only the
  `startNextTurn` it calls has an effect.
- `divineProphecies` loops forever for a count above six
  (`AboveSixNeverEnds`).

Scoring and guess handling as the source writes them:
- A correct guess earns a fixed `Math.floor(100 * 0.8)` = 80 essence in the
  ritual iteration (src/services/ritual.service.ts:89-95) and
  `Math.floor(100 * 0.5)` = 50 points in the game iteration
  (src/services/game.service.ts:114-117). The comments there speak of points
  draining over time, but no such computation is written.
- The caster earns 15 essence per correct guess
  (src/services/ritual.service.ts:100-104); the drawer earns 10 points
  (src/services/game.service.ts:124-126).
- An empty or all-whitespace guess is not refused: it is trimmed, lower-cased
  and compared like any other text (src/services/ritual.service.ts:82-86,
  src/services/game.service.ts:109-112).

## Model

| member | source | states |
|---|---|---|
| Chance.PickIndex | src/services/ritual.service.ts:24 | `Math.floor(roll * n)` for a roll in [0, 1) is an index below n, the floor of roll·n |
| Text.TrimStartDropsLeading | src/game/prophecies.ts:37 | the start of `trim` drops exactly the leading run of whitespace characters: the result is a suffix that does not start with one |
| Text.TrimEndDropsTrailing | src/game/prophecies.ts:37 | the end of `trim` drops exactly the trailing run of whitespace characters: the result is a prefix that does not end with one |
| Text.TrimKeepsInfix | src/services/ritual.service.ts:82 | `s.trim()` is the infix of s between the first and last non-whitespace characters; everything cut off is whitespace |
| Text.LowerChar | src/services/ritual.service.ts:83 | lower-casing one character leaves no upper-case letter, maps A–Z down by 32 and leaves every other character alone |
| Text.ToLower | src/services/ritual.service.ts:82-83 | `toLowerCase` keeps the length and lower-cases each character in place |
| Text.Includes | src/services/ritual.service.ts:114 | `hay.includes(needle)` holds exactly when the needle occurs at some index of hay |
| Text.Glyph | src/services/ritual.service.ts:57 | a space is shown as a space, every other character as `_` |
| Text.Mask | src/services/ritual.service.ts:55-58 | the omen has one glyph per character at even positions, single spaces at odd positions, length 2n−1 (empty for an empty word) |
| Text.TrimIgnoresPadding | src/services/ritual.service.ts:82 | whitespace added around any text does not change what `trim` keeps |
| Text.LowerCommutesWithTrim | src/services/ritual.service.ts:82 | lower-casing and trimming commute: `toLowerCase` never makes or removes whitespace |
| Text.MaskRevealsOnlyLayout | src/services/ritual.service.ts:55-58 | two words of the same length with spaces at the same places get the same omen: the mask reveals nothing else |
| Text.Decimal | src/game/prophecies.ts:36 | `n.toString()` is a non-empty string of decimal digits without a leading zero whose value is n; it has two or more digits exactly when n ≥ 10 |
| Text.DecimalInjective | src/game/prophecies.ts:36 | distinct numbers have distinct decimal forms |
| Guess.NearMissIsOneCharShort | src/services/ritual.service.ts:114 | a CLOSE guess is the lower-cased secret minus exactly one character at its start or end |
| Guess.PaddingIgnored | src/services/ritual.service.ts:82-86 | a guess padded with whitespace cleans to the same text as the bare guess, so it is exact or near exactly when the bare one is |
| Guess.CaseIgnored | src/services/ritual.service.ts:82-86 | guesses that lower-case alike clean alike, and are exact or near alike against secrets that lower-case alike |
| ChamberStore.NewChamber | src/services/chamber.service.ts:39-60 | a provisioned chamber is gathering, empty, without caster, prophecies, omen, enigma or sigils, with the primordial pact, the given id and creation time |
| ChamberStore.FindSocket | src/services/chamber.service.ts:76 | `findIndex` by socket id: the first matching index, -1 (None) exactly when no seer has that socket |
| ChamberStore.FindSeer | src/services/ritual.service.ts:74 | `find` by seer id: the first matching seer, None exactly when no seer has that id |
| ChamberStore.FindSeerAfterUpdate | src/services/ritual.service.ts:95-100 | updating a seer in place without changing its id moves no later `find` by seer id |
| ChamberStore.SameIdsSameFind | src/services/ritual.service.ts:100 | rosters with the same ids at the same places answer every `find` alike |
| ChamberStore.FindCasterAfterUpdate | src/services/ritual.service.ts:95-101 | the caster `find` after the guesser's update finds the same index as before it |
| ChamberStore.Admit | src/services/chamber.service.ts:76-103 | full chamber and unknown socket: refused with "chamber is full" and the roster unchanged; known socket: replaced in place keeping its essence ("seer re-registered"); otherwise appended ("seer registered"); never past the plenum |
| ChamberStore.Expel | src/services/chamber.service.ts:122 | the filter keeps exactly the seers on other sockets, and shrinks the roster exactly when the socket was present |
| ChamberStore.ExpelKeepsOrder | src/services/chamber.service.ts:122 | the filter keeps the remaining seers in roster order |
| ChamberStore.FirstOpen | src/services/chamber.service.ts:31-35 | allocateChamber's scan: the first chamber in insertion order with at most plenum seers, None exactly when there is none |
| ChamberStore.FullChamberIsStillAllocated | src/services/chamber.service.ts:32 | in any key order, a chamber with exactly plenum seers and no open chamber before it is the one the scan hands out, and it refuses every new socket |
| ChamberStore.Erase | src/services/chamber.service.ts:27 | deleting a key removes it from the iteration order and keeps every other key; deleting an absent key changes nothing |
| ChamberStore.EraseAt | src/services/chamber.service.ts:27 | in a duplicate-free order the deleted key is cut out and the keys before and after it keep their order |
| ChamberStore.EraseKeepsDistinct | src/services/chamber.service.ts:27 | deleting keeps the iteration order free of duplicates |
| ChamberStore.Registry.constructor | src/services/chamber.service.ts:12 | the store starts empty |
| ChamberStore.Registry.PersistChamber | src/services/chamber.service.ts:14-16 | `Map.set`: the chamber is stored under its id; a new id goes to the end of the order, a known one keeps its place |
| ChamberStore.Registry.RetrieveChamber | src/services/chamber.service.ts:18-20 | the chamber stored under the id, which carries that id; null exactly when absent |
| ChamberStore.Registry.RetrieveChambers | src/services/chamber.service.ts:22-24 | every stored chamber once, in insertion order |
| ChamberStore.Registry.DisposeChamber | src/services/chamber.service.ts:26-28 | `Map.delete`: the id is gone from map and order, nothing else changes |
| ChamberStore.Registry.ProvisionChamber | src/services/chamber.service.ts:39-64 | a pristine chamber is stored under the fresh id, which is returned |
| ChamberStore.Registry.AllocateChamber | src/services/chamber.service.ts:30-37 | returns the first open chamber's id and changes nothing, or provisions a fresh chamber when none is open |
| ChamberStore.Registry.RegisterSeer | src/services/chamber.service.ts:66-104 | "chamber not found" and no change for an unknown chamber; otherwise Admit's reply and roster |
| ChamberStore.Registry.DeregisterSeer | src/services/chamber.service.ts:106-130 | unknown chamber or socket: nothing changes; otherwise the first seer on the socket is returned, every seer on it removed, and the chamber disposed exactly when its roster became empty |
| ChamberStore.Registry.RetrieveSeers | src/services/chamber.service.ts:132-138 | the roster of a stored chamber, empty for an unknown one |
| Rites.TotalEssenceAfterUpdate | src/services/ritual.service.ts:95-103 | replacing one seer changes the roster's total essence by the difference |
| Rites.RewardCaster | src/services/ritual.service.ts:100-104 | the first seer with the caster id gains 15 essence and 15 round essence; no caster found, nothing changes |
| Rites.SeesAsCaster | src/services/ritual.service.ts:132-133 | the requester sees the prophecies exactly when some seer carries its id, no earlier seer does, and that seer is the caster |
| Ritual.Anoint | src/services/ritual.service.ts:27-31 | after the reset exactly the seers with the caster's id are casters, nobody has unveiled, every round essence is 0, everything else is kept |
| Ritual.Prophesy | src/services/ritual.service.ts:34-38 | three prophecies, each from the arcane bank |
| Ritual.PrepareCycle | src/services/ritual.service.ts:19-46 | refused exactly below two seers; otherwise a caster drawn from the roster, the roster reset by Anoint for that caster, three prophecies, no omen, enigma or sigils, INVOKING; with unique seer ids exactly one caster |
| Ritual.Manifest | src/services/ritual.service.ts:48-64 | the prophecy becomes the enigma and its Mask the omen, prophecies cleared, MANIFESTING, nothing else changed |
| Ritual.Unveil | src/services/ritual.service.ts:94-104 | the roster is RewardCaster applied after the guesser is credited: the guesser gets 80 and is marked, the caster found by id gets 15, nobody else changes, seer ids stay, total essence rises by 80 plus 15 when a caster is found |
| Ritual.Decipher | src/services/ritual.service.ts:66-122 | DISCORD when no guess is heard or the seer is unknown; ALREADY_UNVEILED for the caster or a seer who unveiled; UNVEILED exactly for an exact match; CLOSE exactly for a near miss; only UNVEILED changes the chamber |
| Ritual.ScoredAtMostOnce | src/services/ritual.service.ts:78-97 | after UNVEILED the same seer's next guess is ALREADY_UNVEILED |
| Ritual.PerceiveRitual | src/services/ritual.service.ts:128-144 | null for an unknown chamber; otherwise the chamber with the enigma hidden and the prophecies only for the caster |
| Ritual.PrepareRitualCycle | src/services/ritual.service.ts:19-46 | false and no change for an unknown chamber or fewer than two seers; otherwise the stored chamber becomes PrepareCycle's |
| Ritual.ManifestEnigma | src/services/ritual.service.ts:48-64 | false for an unknown chamber; otherwise the stored chamber becomes Manifest's |
| Ritual.AttemptDecipher | src/services/ritual.service.ts:66-122 | DISCORD for an unknown chamber; otherwise Decipher's outcome, and the stored chamber becomes Decipher's |
| Rune.Guessers | src/services/rune.service.ts:87 | the filter keeps exactly the non-casters, and is non-empty exactly when there is one |
| Rune.EveryUnveiled | src/services/rune.service.ts:88 | `every` holds exactly when each guesser has unveiled |
| Rune.Assess | src/services/rune.service.ts:85-95 | REVEALING exactly when every non-caster has unveiled and there is one; otherwise the phase stays; nothing else changes |
| Rune.MarkUnveiled | src/services/rune.service.ts:55-63 | the roster is RewardCaster applied after the guesser is marked: the guesser is marked without essence, the caster found by id gains 15, nobody else changes, total essence rises by 15 exactly when a caster is found |
| Rune.Unveil | src/services/rune.service.ts:55-66 | the UNVEILED branch is MarkUnveiled followed by the phase assessment |
| Rune.Decipher | src/services/rune.service.ts:28-79 | IGNORE exactly when no guess is heard or the seer is unknown; ALREADY_UNVEILED, UNVEILED, CLOSE and DISCORD each exactly on their condition; no essence is ever reported; only UNVEILED changes the chamber |
| Rune.UnveilsAtMostOnce | src/services/rune.service.ts:40-55 | after UNVEILED the same seer is never UNVEILED again |
| Rune.LastGuessReveals | src/services/rune.service.ts:55-66 | the last non-caster to unveil moves the chamber to REVEALING |
| Rune.CastSigil | src/services/rune.service.ts:14-21 | appends the sigil to a stored chamber in MANIFESTING; otherwise nothing changes |
| Rune.BanishSigils | src/services/rune.service.ts:23-26 | empties a stored chamber's sigils in any phase; otherwise nothing changes |
| Rune.AttemptDecipher | src/services/rune.service.ts:28-79 | IGNORE for an unknown chamber; otherwise Decipher's outcome, and the stored chamber becomes Decipher's |
| Rune.PerceiveRitual | src/services/rune.service.ts:101-117 | null for an unknown chamber; otherwise the chamber with the enigma shown only in REVEALING and the prophecies only for the caster |
| Game.Lookup | src/services/game.service.ts:101 | `players.get(key)`: the entry with that key, None exactly when no entry has it |
| Game.LookupFindsEntry | src/services/game.service.ts:101 | in a Map, whose keys are distinct, `get` by a seated player's key finds that player's entry |
| Game.SameKeysSameLookup | src/services/game.service.ts:125 | tables with the same keys at the same places answer every `get` alike |
| Game.DrawWords | src/services/game.service.ts:64-68 | three word choices, each from the word bank |
| Game.PickDrawer | src/services/game.service.ts:50-51 | the drawer id is a key of the players Map, unset exactly when there are no players |
| Game.NextTurn | src/services/game.service.ts:46-71 | a drawer exactly when there are players; exactly the players whose socket id is the drawer id draw; every round reset; under unique socket ids at most one drawer; strokes cleared; SELECTING_WORD; three bank words; nothing else changed |
| Game.DealKeepsKeys | src/services/game.service.ts:53-57 | the per-player reset keeps every key, so the Map's keys stay distinct |
| Game.StartRound | src/services/game.service.ts:73-86 | the word is set with its Mask as the hint (placeholders and spaces, length 2n−1), PLAYING, deadline `now + roundTimeMS` |
| Game.Guessers | src/services/game.service.ts:147 | the filter keeps exactly the seated non-drawers |
| Game.EveryGuessed | src/services/game.service.ts:148 | `every` holds exactly when each guesser has guessed |
| Game.EndIfAllGuessed | src/services/game.service.ts:142-154 | ROUND_OVER exactly when every non-drawer has guessed, so also when there is none; nothing else changes |
| Game.NearGuessAgreesWithRitual | src/services/game.service.ts:135 | the near-miss test without `Math.abs` agrees with the ritual service's test with it |
| Game.TotalScoreAfterUpdate | src/services/game.service.ts:120-126 | replacing one player changes the total score by the difference |
| Game.Credit | src/services/game.service.ts:120-126 | the players are Reward applied after the guesser is scored: the guesser gets 50, round score 50, and is marked; the drawer (looked up after that) gets 10; nobody else changes; total score rises by 50 plus 10 when a drawer is found |
| Game.Reward | src/services/game.service.ts:125-126 | only the seated drawer's cumulative score changes, by 10; no other field of any player changes; total score rises by 10 exactly when the drawer is found |
| Game.Judge | src/services/game.service.ts:95-140 | WRONG when no guess is heard, the player is unknown or the guess misses; ALREADY_GUESSED for the drawer or a player who guessed; CORRECT exactly for an exact match, with Credit then the end-of-round check; CLOSE exactly for a near miss; only CORRECT changes the room |
| Game.ScoredAtMostOnce | src/services/game.service.ts:105-122 | after CORRECT the same socket's next guess never scores |
| Game.LastGuessEndsRound | src/services/game.service.ts:120-129 | the last non-drawer to guess ends the round |
| Game.Table.constructor | src/services/chamber.service.ts:12 | the room store starts empty |
| Game.AddStroke | src/services/game.service.ts:6-12 | appends the stroke to a stored room that is PLAYING; otherwise nothing changes |
| Game.ClearCanvas | src/services/game.service.ts:14-18 | empties a stored room's strokes in any status; otherwise nothing changes |
| Game.StartNextTurn | src/services/game.service.ts:46-71 | false exactly for an unknown room; otherwise the stored room becomes NextTurn's |
| Game.StartGame | src/services/game.service.ts:20-44 | false and no change for an unknown room or fewer than two players; otherwise startNextTurn's effect |
| Game.SetWordAndStartRound | src/services/game.service.ts:73-86 | a stored room becomes StartRound's; otherwise nothing changes |
| Game.ProcessGuess | src/services/game.service.ts:95-140 | WRONG for an unknown room; otherwise Judge's verdict, and the stored room becomes Judge's |
| Game.CheckIfRoundShouldEnd | src/services/game.service.ts:142-154 | a stored room becomes EndIfAllGuessed's; otherwise nothing changes |
| Game.GetGameState | src/services/game.service.ts:160-171 | null exactly for an unknown room; otherwise the room with its players listed in Map order and the word and the choices nulled |
| Prophecies.AllDomainsListed | src/game/prophecies.ts:51 | `Object.keys` of a grimoire lists all six domains |
| Prophecies.RuneId | src/game/prophecies.ts:36 | an id is `rune_` followed by the decimal sequence number |
| Prophecies.RuneIdInjective | src/game/prophecies.ts:36 | distinct sequence numbers give distinct ids |
| Prophecies.ConceptCountAppend | src/game/prophecies.ts:34-35 | one more scroll adds its number of concepts to the count |
| Prophecies.TrimAll | src/game/prophecies.ts:37 | every concept is trimmed, order and number kept |
| Prophecies.ScrubAll | src/game/prophecies.ts:34-37 | each scroll keeps its domain and circle and gets its concepts trimmed; the concept count is kept |
| Prophecies.ScrubAllAppend | src/game/prophecies.ts:34-37 | trimming distributes over appending a scroll |
| Prophecies.Engrave | src/game/prophecies.ts:35-40 | one enigma per concept, each with the scroll's domain |
| Prophecies.Enigmas | src/game/prophecies.ts:34-45 | one enigma per concept across all scriptures |
| Prophecies.OfDomain | src/game/prophecies.ts:42-43 | a domain's shelf is no longer than the list it is filed from |
| Prophecies.OfDomainMembers | src/game/prophecies.ts:42-43 | a domain's shelf holds exactly the enigmas of that domain |
| Prophecies.EmptyGrimoire | src/game/prophecies.ts:23-30 | the six domain keys, each with an empty list |
| Prophecies.FiledNothing | src/game/prophecies.ts:23-30 | filing no scriptures leaves the six empty shelves consecrateGrimoire starts from |
| Prophecies.OfDomainAppend | src/game/prophecies.ts:42-43 | filing distributes over appending enigmas |
| Prophecies.EnigmasAppend | src/game/prophecies.ts:34-45 | one more scroll appends its enigmas, numbered after all earlier concepts |
| Prophecies.ShelfAppends | src/game/prophecies.ts:42-44 | one more scroll adds its enigmas at the end of its own domain's list and nowhere else |
| Prophecies.FiledAppends | src/game/prophecies.ts:42-44 | filing one more scroll appends its enigmas to its own domain and leaves the other shelves alone, so input order is kept within a domain |
| Prophecies.EnigmaIdsConsecutive | src/game/prophecies.ts:32-36 | the i-th enigma across all scriptures is `rune_{first+i}` |
| Prophecies.EnigmasFollowScrolls | src/game/prophecies.ts:35-40 | every enigma is a concept of some scroll and carries that scroll's domain and circle |
| Prophecies.ConsecratedFollowsScrolls | src/game/prophecies.ts:35-44 | every entry of a domain's list has that domain and is the trimmed concept of a scroll of that domain, with its circle |
| Prophecies.OfDomainKeepsDistinct | src/game/prophecies.ts:42-43 | filing keeps ids distinct |
| Prophecies.EnigmaIdsDistinct | src/game/prophecies.ts:32-36 | the enigmas of all scriptures have pairwise distinct ids |
| Prophecies.AcrossDomains | src/game/prophecies.ts:36-43 | entries on different shelves have different ids |
| Prophecies.FiledIdsUnique | src/game/prophecies.ts:32-44 | no two entries of the grimoire, in one domain or across two, share an id |
| Prophecies.ConsecratedIdsUnique | src/game/prophecies.ts:22-48 | the ids of the consecrated grimoire are unique |
| Prophecies.ShelveKeepsCount | src/game/prophecies.ts:42-44 | filing loses and duplicates no enigma: the shelves together hold as many as were filed |
| Prophecies.ConsecratedTotal | src/game/prophecies.ts:34-45 | the grimoire holds as many enigmas as the scriptures have concepts |
| Prophecies.EngraveScroll | src/game/prophecies.ts:35-40 | the `map` of one scroll: trimmed enigmas numbered from the running sequence, which advances by the number of concepts |
| Prophecies.ConsecrateGrimoire | src/game/prophecies.ts:22-48 | the returned grimoire is the consecrated one: six shelves, trimmed concepts, consecutive unique ids |
| Prophecies.DistinctWithin | src/game/prophecies.ts:58-59 | distinct domains drawn from a pool are at most as many as the pool |
| Prophecies.AtMostSixDomains | src/game/prophecies.ts:55-61 | at most six distinct domains can be selected |
| Prophecies.Select | src/game/prophecies.ts:53-61 | the domain draw keeps what was selected, keeps the selection distinct, ends with exactly `count` (or the selection so far when that is more) and consumes a prefix of the rolls |
| Prophecies.SelectStep | src/game/prophecies.ts:55-60 | one turn of the loop consumes one roll and appends the drawn domain exactly when it is new |
| Prophecies.Pick | src/game/prophecies.ts:64-68 | nothing exactly for an empty list; otherwise the concept of one of its enigmas |
| Prophecies.Reveal | src/game/prophecies.ts:63-69 | the i-th entry is the pick from the i-th selected domain's shelf with the i-th roll, so it is a concept of that domain, nothing exactly when the shelf is empty |
| Prophecies.DivineDrawsDistinctDomains | src/game/prophecies.ts:50-72 | a finished draw has `count` entries (none below one), the i-th from the i-th of pairwise distinct domains, nothing exactly when that domain is empty |
| Prophecies.AboveSixNeverEnds | src/game/prophecies.ts:55-61 | for a count above six no stream of rolls ends the draw |
| Prophecies.SweepSelects | src/game/prophecies.ts:55-61 | from the k-th of the rolls 0, 1/6, …, 5/6 on, the draw selects the domains in key order until `count` are selected, one roll each, and leaves the rest |
| Prophecies.SweepTwiceEnds | src/game/prophecies.ts:55-69 | two sweeps of those rolls end any draw of up to six domains |
| Prophecies.UpToSixCanEnd | src/game/prophecies.ts:55-61 | for a count up to six some stream of rolls ends the draw |
| Prophecies.RollsExtend | src/game/prophecies.ts:55-61 | rolls after a finished draw are left for the picks |
| Prophecies.DivineProphecies | src/game/prophecies.ts:50-72 | the loop's result is the draw specified by Select and Reveal |
| Prophecies.AncientScriptures | src/game/prophecies.ts:74-81 | one scroll per domain in key order, Novice, Novice, Adept, Adept, Master, Master, holding the animals, actions, objects, professions, movies and idioms lists in that order |
| Prophecies.AncientTotal | src/game/prophecies.ts:74-81 | the fixed grimoire holds one enigma for every word of the six lists |
| Prophecies.SummonProphecies | src/game/prophecies.ts:83-87 | a draw of `count` (3 by default) over the grimoire consecrated from the fixed scriptures |

## Left out

- Socket handlers, the socket.io transport and broadcasting are not part of this model. They are I/O. The handlers also call services (`executeRite`, `sealProphecy`, `findOrCreateRoom`, `addPlayer`) that the service files do not define.
- Post, comment, chat and message business, data, controller, route and model files are not part of this model. They are database CRUD, S3 calls and image processing.
- Timers and round deadlines are not modelled; no timer code exists. Races between timer-driven and manual transitions are also left out, because the model is sequential.
- Time-decayed scoring is not modelled: no service implements it, and the points are fixed constants.
- `Math.random()` and `Date.now()` are caller-supplied parameters. The text form of the chamber id (`chamber_<base-36 time>_<n>`) is replaced by a caller-supplied fresh id.
- `Text.LowerChar`: lower-cases ASCII letters only. Unicode case mapping is out of scope.
- `Text.TrimKeepsInfix`: strings are sequences of characters, not UTF-16 code units.
- Aliasing is not modelled. The seer a service returns or mutates is the same object as the roster entry in the source; here both are values.
- `game.service.ts` reads rooms through `chamberService.getChamber`, which `chamber.service.ts` does not define, and its rooms have another shape. `Game.Table` stands in for that store.
- The `?? "Void"` and `?? "Apple"` fallbacks of the word draws are never reached, because the index is always in range. They are not modelled.
- `Game.StartGame`: the reset copy the source builds and discards is not modelled; it has no effect.
- `Prophecies.DivineProphecies`: randomness is a finite stream of rolls. Running out of rolls gives None, where the source would keep drawing.
- `Prophecies.DivineProphecies`: `count` is an integer. A fractional count is not modelled.
- `Prophecies.SummonProphecies`: the six concept lists come from `./constants`, which is not part of this model, so they are a parameter (`Lexicon`). The grimoire is consecrated per call, not once at module load; the function is pure, so the result is the same.
- The type-only files under `src/types` are not modelled separately. Their shapes appear as the datatypes.
