# A verified model of the simulation core

This project models, in Dafny, the turn of a programmable space strategy game: a
universe of planets and fleets that player scripts command, advanced round by round
by a C++ server, and the forum markup and storage routines around it. It proves what
each phase of a round keeps, what every reachable universe satisfies, what a fight
does whatever the dice, and round trips of the storage and text routines.

What scripts, dice, clocks and the database answer comes in as data: the actions and
answers of a round (`Phases.RoundInput`), the random draws of a fight (`Combat.Draw`),
the tag table and renderers of the markup. Nothing is assumed about them beyond what
`RunLaws.ValidInput` says: the hash map lists each planet once, and a new player
really is new and draws a free planet. Where it matters, a lemma also asks that nobody
was asked whether he wants to fight himself, which the source never does
(src/Simulation.cpp:923-925).

## How it is laid out

- `Basics`, `Model`, `Prices`, `Planets`, `Fleets`: the entities, the constant tables,
  and the rules for one planet or one fleet, as functions on values; integer widths
  and saturation are written out.
- `OrderLaws`: what becomes of an order until it is carried out.
- `Forest`: the parent relation of the planets, and the pointer chase that repairs it.
- `Multimap`, `Gather`, `GatherLaws`, `ConsentLaws`: coordinate-keyed multimaps and the
  gathering pass.
- `Combat`, `Fight`, `FightLaws`, `DuelLaws`, `BystanderLaws`: one shot, one volley, one
  fight, its report, the experience rule that reads it, and when a fight throws.
- `Phases`: the phases of a round as functions from universe to universe.  Each has a
  closed form, told from the universe before it: `BuildLaws` for the planet tasks,
  `TaskLaws` for the fleet tasks, `ScriptLaws` for both kinds of scripts, `PlaceLaws` and
  `LossLaws` for the fights and their losses; `PhaseLaws`, `WarLaws` and `BattleLaws` say
  what they keep.
- `RunLaws`, `RoundLaws`, `MarchLaws`, `SizeLaws`: rounds and runs.
- `Universe` (module `Universes`): the classes `Universe` and `Simulation`, whose
  methods update the maps in place, phase by phase, each proved equal to its function.
- `Archive`, `Saves`, `NilTree`: the binary integer archive, the pruning of old saves,
  the cleaning of memory trees.
- `BBEscape`, `BBTokens`, `BBTokenLaws`, `BBFormat`, `BBFormatLaws`: escaping,
  tokenizing and formatting of forum markup.

## The main results

- A whole round is told from the universe before it (`RoundLaws.RoundOutcome`), phase by
  phase in closed form: planet tasks (`BuildLaws.PlanetTasksOutcome`), fleet tasks
  (`TaskLaws.FleetTasksOutcome`), planet scripts (`ScriptLaws.PlanetScriptsOutcome`),
  fleet scripts (`ScriptLaws.FleetsPhaseOutcome`) and fights (`PlaceLaws.WarOutcome`),
  with the exact condition under which it is abandoned.
- Every state of every run satisfies one invariant (`RunLaws.EveryRunKeepsInv`): the
  owned planets form a forest rooted in the main planets, fleets start from planets
  of their owner, no level passes 23, hangars hold at most one ship, ids are fresh.
- A move asked for in one round has been made after the next completed one, whatever is
  abandoned in between (`MarchLaws.MoveArrives`).
- The two `while(true)` loops that reassign orphans stop, and give each survivor its
  nearest surviving ancestor (`Forest.Reassign`, `LossLaws.FightsSettle`).
- A volley has a closed form that does not depend on the order of the shooters
  (`Combat.Fire`), whom it destroys can be read off the tables
  (`DuelLaws.LoneUnitSurvivesIff`), and a fight only ever takes units away
  (`FightLaws.FightOnlyLosesShips`).
- Gathering conserves every player's ships of every type, merges only fleets whose
  scripts asked for it, and all of those that fit (`GatherLaws.PassConservesShips`,
  `GatherLaws.GatherIsRegrouping`, `ConsentLaws.MergesExhausted`).
- Loading undoes saving (`Archive.LoadAfterSave`); pruning twice is pruning once, and
  keeps logarithmically many saves, one close to every deleted one (`Saves.PruneTwice`,
  `Saves.KeptIsLogarithmic`, `Saves.DeletedHasCloseKept`).
- The tokenizer reports exactly the innermost recognized brackets and, unless an opener
  dangles, loses no text; the formatter gives every token one place in a well-nested tree
  (`BBTokenLaws.TagsAreTheBrackets`, `BBFormatLaws.TreeKeepsTokens`).

## What the code does that one might not expect

Each of these has a witness and the exact condition where the code meets the expectation.

- A planet may pay an accepted order and still throw: `pay` throws exactly when more
  than two billion metal would remain. That happens only on a planet settled in the
  same round on a very rich free cell, and the whole round is then abandoned
  (`OrderLaws.ColonyUpgradeThrowsIff`, `OrderLaws.RichColonyThrows`,
  `PhaseLaws.PlanetScriptsKeep`).
- A turn of a fight throws exactly when somebody must fight while a player present has
  nobody to shoot at; `enemyCount - 1` then wraps (`Fight.TurnThrowsIff`). Players can
  fight each other in any armies without that ever happening exactly when none of them
  can be a bystander of two hostile others (`BystanderLaws.FightsEndIff`).
- The price of an army in the experience rule multiplies in 32 bits. The loss never
  underflows exactly up to 21474 ships of a type, which the Cohesion skill guarantees
  exactly up to level 10 (`FightLaws.SafeCountIff`, `FightLaws.SafeCohesionIff`).
- A planet whose owner everybody leaves alone, without a cannon and without a fleet that
  stayed, is lost exactly when others fight around it; with either, their fight throws
  (`LossLaws.BystanderLostIff`, `LossLaws.BystanderPlanetDies`).
- The planet cap is tested against a count frozen at the start of the round. It is kept
  exactly when the planets held and the claims of the round are within it together
  (`TaskLaws.CapKeptIff`, `TaskLaws.CapExceeded`).
- Saving an integer ends exactly when it is not the least 64-bit value
  (`Archive.SaveTerminatesIff`), and its bytes are the same on every host exactly when
  one of the two endianness flags is set (`Archive.HostIndependentIff`).
- The tokenizer repeats the text between the last tag and an opener without a closer,
  exactly when there is such text (`BBTokenLaws.LosslessIff`, `BBTokenLaws.RepeatedText`).

The model relies on main planets being created once per player, which the engine does
(src/Engine.cpp:58-59 and 98-101);
`Forest.SecondMainTrapsIff` says what that protects. The order to stop a building is
modelled because the switch handles it, but no script can build it yet
(`OrderLaws.ActionOrdersWhatItNames`).

## Model

| member | source | states |
|---|---|---|
| Prices.GetBuildingPrice | src/UnivManip.cpp:60-83 | The loop over the price table gives no price exactly when one is out of range; bad building ids and level 0 are errors, nothing else is |
| Prices.PriceFitsIff | src/UnivManip.cpp:60-83 | The 32-bit test of the price admits a level exactly up to 23 |
| Prices.MetalPriceGrows | src/UnivManip.cpp:60-83 | A higher level always costs strictly more metal |
| Planets.CanPay | src/UnivManip.cpp:310-318 | True exactly when every resource is covered |
| Planets.AcceptedUpgradeBilled | src/UnivManip.cpp:392-463 | An accepted upgrade targets a level of at most 23 and is billed exactly its price; it throws exactly when over two billion metal would remain |
| Planets.AcceptedShipBilled | src/UnivManip.cpp:370-489 | The same for a ship, which is accepted only with an empty hangar |
| Planets.AcceptedCannonBilled | src/UnivManip.cpp:416-519 | The same for a cannon, admitted by the ship table and billed from the cannon table |
| Planets.ActionKeepsPlanet | src/Simulation.cpp:330-368 | Whatever a script orders, the planet stays well formed with only task and stock changed, and only a stock above two billion metal can make it throw |
| Planets.TaskKeepsPlanet | src/UnivManip.cpp:548-592 | A planet's task never throws; it waits until it is due and then adds exactly one level, ship or cannon of the type it names, the level at most 23 and the ship alone in the hangar |
| Planets.RunBuildings | src/UnivManip.cpp:664-739 | The loop over the buildings yields the saturating sum of what command centre and mine produce |
| Planets.RoundStockExact | src/UnivManip.cpp:729-742 | A planet ends its round with the true sum of stock, production and crystals, up to one billion: saturation on the way never shows |
| Planets.LimitStock | src/UnivManip.cpp:740-742 | Every resource ends at most at one billion, and lower ones are untouched |
| Basics.CappedAddGrouping | src/Tools.h:189-197 | Saturating addition gives the capped true sum in any order and grouping |
| Basics.AddArray | src/Tools.h:199-204 | Adds every cell in place, saturating |
| Basics.AddTabExact | src/Tools.h:199-204 | With totals that fit in 32 bits nothing is lost to saturation, per cell and in sum |
| Basics.AccumulateIntExact | src/UnivManip.cpp:891-894 | Counting ships in an `int` is exact while the true sum fits, and zero exactly for an empty table |
| Fleets.GatherTestExact | src/Rules.cpp:439-451 | For fleets that an `int` can count the test holds exactly when the true total is within the cap and fits in an `int` |
| Fleets.MergedCargo | src/UnivManip.cpp:764-768 | Merged cargo is the capped sum whatever the order of merging |
| Fleets.ActionKeepsFleet | src/Simulation.cpp:533-585 | A fleet order stays on the map, within one cell, and changes only task and cargo |
| Fleets.RoundKeepsFleet | src/UnivManip.cpp:596-659 | A fleet round after the order never throws; the fleet ends idle, exactly where a move sent it and otherwise where it was, at most one cell away on each axis, with no ship more |
| Fleets.RoundOnPlanets | src/UnivManip.cpp:603-655 | A fleet round empties or settles at most the free planet below the fleet, and the colony's parent is the origin of the fleet |
| Fleets.ColonyOk | src/UnivManip.cpp:622-648 | A new colony is a well-formed planet |
| OrderLaws.MoveCarriedOut | src/UnivManip.cpp:596-621 | An accepted move brings the fleet exactly to its adjacent target in the next round |
| OrderLaws.HarvestCarriedOut | src/UnivManip.cpp:601-659 | An accepted harvest brings in all a still free planet has, up to the cargo limit, and empties it; a settled planet keeps everything |
| OrderLaws.ColonizeCarriedOut | src/UnivManip.cpp:601-659 | An accepted colonisation succeeds exactly when the planet is still free and the frozen count below the cap; it costs one queen, and the colony, with a command centre, 2000 metal and 500 carbon more than the free cell had, hangs below the fleet's origin |
| OrderLaws.DropMovesCargo | src/UnivManip.cpp:859-879 | A drop moves the whole cargo to the player's own planet and loses only what 32 bits cannot hold |
| OrderLaws.UpgradeCarriedOut | src/UnivManip.cpp:437-567 | An accepted upgrade costs its price at once and raises that one level exactly when due |
| OrderLaws.StopForfeits | src/UnivManip.cpp:534-544 | Stopping an upgrade gives no price back |
| OrderLaws.StopOnlyStops | src/Simulation.cpp:347-357 | A stop action names no ship, so its case runs on into the ship case without effect: it is exactly `stopTask` |
| OrderLaws.ActionOrdersWhatItNames | src/LuaUniverse.cpp:84-108 | No script can build a stop action; whatever one can build changes nothing or starts the one task of its kind and index |
| OrderLaws.ColonyUpgradeThrowsIff | src/UnivManip.cpp:337-349 | A colony's accepted upgrade throws exactly when the metal of the free cell plus 2000, less the price, is above two billion |
| OrderLaws.RichColonyThrows | src/UnivManip.cpp:337-349 | Such a cell: three billion metal |
| OrderLaws.ShipCarriedOut | src/UnivManip.cpp:568-743 | A due ship leaves at once as a fleet of its own, or waits alone in the hangar when the player has all fleets allowed |
| Forest.ChainReachesMain | src/Simulation.cpp:1077-1089 | In a ranked universe every chain of parents stays with its owner and ends at the owner's main planet, the only one that is its own parent |
| Forest.ColonyRanked | src/UnivManip.cpp:622-648 | Settling a free planet keeps the forest |
| Forest.MainPlanetRanked | src/UnivManip.cpp:163-191 | A first main planet on a free planet keeps the forest |
| Forest.AllLosses | src/Rules.cpp:21-37 | After all losses the new-parent map is exactly the old parent relation on the lost planets that are no main planets; those are bare, all others untouched |
| Forest.LossesDescend | src/Rules.cpp:26-36 | In a forest that map leads only to older planets, so chasing it must stop |
| Forest.Reassign | src/Simulation.cpp:1068-1075 | The `while(true)` loop stops, at the coordinate where the chain of lost parents ends |
| Forest.ChaseFollowsAncestors | src/Simulation.cpp:1064-1089 | A chase visits exactly the old ancestors, all lost but the last |
| Forest.ChaseEnds | src/Simulation.cpp:1064-1089 | From a planet of the forest the chase ends at a surviving planet of the same owner |
| Forest.LossesKeepForest | src/Simulation.cpp:1059-1089 | Afterwards each survivor hangs below its nearest surviving ancestor and the forest is ranked as before |
| Forest.LossesKeepOrigin | src/Simulation.cpp:1064-1076 | The origin of each fleet becomes its nearest surviving ancestor, still owned by the fleet's player |
| Forest.SecondMainTrapsIff | src/Simulation.cpp:1378-1391 | Why main planets are created once per player: after a second creation the chase from the first one would end exactly as long as it is not lost |
| Multimap.InsertAllSorted | src/Simulation.cpp:849-857 | The multimap is sorted by coordinate and holds exactly what was inserted |
| Multimap.InsertAllStable | src/Simulation.cpp:849-857 | Entries of one place keep the order in which they were inserted |
| Multimap.NextNot | src/Tools.h:66-73 | Finds the end of the run of equal keys |
| Multimap.RunIsComplete | src/Simulation.cpp:865-869 | In a sorted multimap everything after the run has a greater key, so each place is met once |
| Gather.FleetMultimapSorted | src/Simulation.cpp:1224-1226 | The local multimap holds each fleet once, by place and then by id |
| Gather.EqualRange | src/Simulation.cpp:414-415 | Finds exactly the fleets of the place |
| Gather.GatherIfWant | src/Simulation.cpp:401-490 | The loop that erases while it walks the run comes to one turn of the pass whose outcome `GatherLaws.GatherIsRegrouping` and `ConsentLaws.MergesExhausted` tell, and keeps the order |
| GatherLaws.PassConservesShips | src/Simulation.cpp:1229-1248 | The whole pass keeps, per player and ship type, the total over fleets and hangars, and enlarges no fleet beyond its cap |
| GatherLaws.GatherIsRegrouping | src/Simulation.cpp:401-490 | Every fleet left is a group of old fleets of one owner and place, each old fleet in exactly one group, with the capped sums of cargoes and ships; every member was asked for by the script of the first; a hangar goes to the first fleet over it whose script asked for it and that has room for it, and to nobody else |
| ConsentLaws.MergesExhausted | src/Simulation.cpp:430-455 | Of two fleets of one player left in one place, the earlier of which asked for the later, both together are above the cap or above what an `int` holds |
| GatherLaws.MergedGroups | src/UnivManip.cpp:764-768 | Merging two groups gives the group of all their members, cargo and ships |
| Combat.CloseHostility | src/fighting.cpp:380-392 | Two players are hostile exactly when one of them wants to fight the other |
| Combat.FightAgain | src/fighting.cpp:232-260 | Testing pairs in order of first appearance finds a hostile pair exactly when there is one |
| Combat.HitsAddUp | src/fighting.cpp:333-352 | Any sequence of shots leaves max(0, S-D) shield and max(0, L-max(0, D-S)) life, D being their total |
| Combat.HitOrderIrrelevant | src/fighting.cpp:313-354 | The order of the shots on a unit does not matter |
| Combat.BuildEnemies | src/fighting.cpp:422-428 | The target list of a player is exactly the units of players hostile to it, in order |
| Combat.Fire | src/fighting.cpp:313-354 | Throws exactly when some unit has no target; otherwise every unit is wounded in place by the total fired at it |
| Combat.EveryShotCountsOnce | src/fighting.cpp:317-353 | Every unit fires exactly once: damages add up to the powers fired, which `DuelLaws.PowersAreFire` reads off the tables |
| Combat.EveryTargetPossible | src/fighting.cpp:324-331 | Whatever enemy one chooses for each shooter, some draw has all of them hit |
| DuelLaws.PowersAreFire | src/fighting.cpp:68-93 | The units of all armies together fire what the ship and cannon tables give for their counts |
| DuelLaws.LoneUnitSurvivesIff | src/fighting.cpp:313-354 | A single unit that everybody else is hostile to survives the first turn exactly when their fire, by the tables, is less than its life and shield in the tables |
| DuelLaws.LoneUnitDestroyed | src/fighting.cpp:414-451 | At or above that sum its army leaves the fight empty, whatever the draws |
| DuelLaws.ShipsAgainstShip | src/fighting.cpp:313-451 | n ships of one type against a single hostile ship: it survives the first turn exactly when n times the power is less than its life and shield, and else its fleet ends empty |
| DuelLaws.ShipsAgainstCannon | src/fighting.cpp:313-451 | The same against the single cannon of a planet |
| DuelLaws.CannonsAgainstShip | src/fighting.cpp:313-451 | The same of n cannons of one type against a single ship |
| Combat.VolleyBounded | src/fighting.cpp:313-354 | A volley only wounds, and total life and shield drop by at most the power fired |
| Combat.TargetsForAll | src/fighting.cpp:326-329 | Every unit has a target exactly when every player present has a hostile unit to shoot at |
| Combat.PairwiseHostileHaveTargets | src/fighting.cpp:418-430 | Pairwise hostile players who must fight all have targets |
| Fight.FillShipList | src/fighting.cpp:68-93 | Appends as many units of each type as the table says |
| Fight.CountAll | src/fighting.cpp:394-412 | Each army enters the fight with exactly the units of its table |
| Fight.FightOnlyLoses | src/fighting.cpp:414-433 | No fight creates a unit: of every army and type at most the initial count is left |
| Fight.FightKeepsKinds | src/fighting.cpp:414-433 | Whoever is left was there at the start, in the same army of the same owner |
| Fight.TurnOutcome | src/fighting.cpp:415-433 | Unit by unit: from a reloaded shield, damage takes shield and then life, a unit is left exactly when it is less than both together, and exactly those units go on |
| Fight.FightEnds | src/fighting.cpp:414-433 | At most five volleys are fired, and after fewer no hostile pair is left alive |
| Fight.TurnThrowsIff | src/fighting.cpp:326-329 | A turn throws exactly when somebody must fight while a player present has nobody to shoot at |
| Fight.PairwiseHostileNeverThrows | src/fighting.cpp:415-433 | Among pairwise hostile players no fight throws, whatever the draws |
| BystanderLaws.NoBystanderNeverThrows | src/fighting.cpp:415-433 | Nor does any fight among players of whom none can be a bystander of two hostile others |
| BystanderLaws.FightsEndIff | src/fighting.cpp:326-329 | All fights among the armies of some players end, for all armies and draws, exactly when for any two of them that are hostile every one of them is hostile to one of the two |
| BystanderLaws.BystanderHasNoUnit | src/fighting.cpp:326-329 | Where two fleets fight, a fight that does not throw has no ship and no cannon of a player everybody leaves alone |
| Fight.RunVolleys | src/fighting.cpp:414-433 | The loop of at most five turns computes the specified fight, or throws with it |
| Fight.Prune | src/fighting.cpp:431-432 | Keeps exactly the living, in order |
| Fight.CountSurvivorsBack | src/fighting.cpp:435-451 | The refilled tables count exactly the surviving units of each army |
| Fight.FightArmies | src/fighting.cpp:356-451 | The whole fight, in place on the fleets |
| FightLaws.SurvivorsOfCell | src/fighting.cpp:435-451 | A refilled cell is the exact number of survivors, at most what the army had, without wrap-around |
| FightLaws.FightOnlyLosesShips | src/fighting.cpp:356-464 | An army leaves a fight with at most what it had of each type and is otherwise unchanged |
| FightLaws.PeaceChangesNothing | src/fighting.cpp:382-451 | Without a hostile pair every table is returned unchanged |
| FightLaws.FillReport | src/fighting.cpp:262-310 | The enemy set holds exactly the hostile armies, and an army has fought exactly when a hostile player has an army there |
| FightLaws.NoReportNoFight | src/Simulation.cpp:948-964 | Some report says there was a fight exactly when two hostile players have armies in the place |
| FightLaws.LossIsExact | src/Rules.cpp:285-290 | While the products fit in 32 bits the loss is the true price of what was lost and never underflows |
| FightLaws.SafeCountIff | src/Rules.cpp:259-290 | The price difference never underflows exactly for fleets of up to 21474 ships of a type |
| FightLaws.SafeCohesionIff | src/Rules.cpp:346-349 | A fleet grown to the size cap is safe exactly up to Cohesion 10 |
| PhaseLaws.CreationsKeep | src/Simulation.cpp:1378-1391 | New players' planets keep the forest and every planet's order |
| PhaseLaws.CreationsOutcome | src/UnivManip.cpp:163-191 | Each new player has the free planet drawn as main planet, with a command centre and 4000 metal and 400 carbon; nothing else changes |
| PhaseLaws.OnePlanetRound | src/UnivManip.cpp:705-743 | One planet round never throws and launches at most one fleet, with the hangar's one ship |
| PhaseLaws.PlanetTasksKeep | src/Simulation.cpp:1439-1440 | The planet tasks never throw; each owned planet plays once and ends within the stock limit; fleets are only added |
| BuildLaws.OnePlanetOutcome | src/UnivManip.cpp:705-743 | One planet round told from the planet before it: one more of what a due task is for, the stock its buildings make, and a fleet with the hangar exactly when there is something in it and the player may have one more |
| BuildLaws.PlanetTasksOutcome | src/Simulation.cpp:1439-1440 | The whole phase of planet tasks in closed form: every owned planet so, the others untouched, and one new fleet per hangar that left, numbered in the order of the planets |
| BuildLaws.CannonCarriedOut | src/UnivManip.cpp:505-584 | An accepted cannon waits until it is due, and then adds one to its own cell and leaves the other cells and the buildings as they were, the planet idle |
| PhaseLaws.FleetTasksKeep | src/Simulation.cpp:1442-1443 | The fleet tasks never throw; each fleet runs its order once and ends idle where the order sent it; the tree only grows |
| TaskLaws.FleetTasksOutcome | src/UnivManip.cpp:596-659 | The whole phase in closed form from the universe before it: a move arrives; of the fleets over a free planet the first settler with a queen and room under the frozen count has it, and the first harvester before any settler has its stock; nothing else changes |
| TaskLaws.HoldingsAfterTasks | src/UnivManip.cpp:622-648 | The phase adds to a player's planets exactly the free planets whose first settler is the player's |
| TaskLaws.CapKeptIff | src/Rules.cpp:427-436 | A player ends the phase within a cap exactly when the planets held before and those claims are within it together |
| TaskLaws.NoClaimAtCap | src/UnivManip.cpp:629-630 | A player whose frozen count is at the cap claims nothing |
| TaskLaws.CapExceeded | src/UnivManip.cpp:629-648 | A universe where a true count of 7 under a cap of 8 becomes 9 in one round |
| PhaseLaws.PlanetScriptsKeep | src/Simulation.cpp:1445-1446 | The planet scripts keep the planets and throw only on a stock above two billion metal |
| ScriptLaws.OneOrderOutcome | src/Simulation.cpp:330-368 | An order is taken exactly when the planet is idle, can pay and has the command centre and level, or the factory and for a ship the empty hangar; it then has that one task and its stock less the table price, and throws exactly when over two billion metal would remain |
| ScriptLaws.PlanetScriptsOutcome | src/Simulation.cpp:705-713 | The whole phase of planet scripts: it throws exactly when one of them does, and else every planet with an action has obeyed it and the others are untouched |
| WarLaws.GatherStems | src/Simulation.cpp:1229-1248 | After gathering each fleet has the identity, place and orders of an old one |
| WarLaws.FleetsPhaseKeeps | src/Simulation.cpp:1215-1364 | What the fleet phase keeps: only fleets it found, in place, with ships and no order but one of this round; what it does is `ScriptLaws.FleetsPhaseOutcome` |
| ScriptLaws.MoveLeads | src/UnivManip.cpp:771-787 | A move is accepted exactly when it leads, in eight-bit coordinates, to a cell of the map at most one step away, and goes there |
| ScriptLaws.FleetScriptsOutcome | src/Simulation.cpp:1347-1356 | The fleet scripts in closed form: each fleet has exactly the task of an action it can take, ordered now, or dropped its cargo, or is as it was; each planet ends with its stock and all cargo dropped there |
| ScriptLaws.FleetsPhaseOutcome | src/Simulation.cpp:1215-1364 | The whole fleet phase: the gathered fleets that have ships, each as its script left it |
| MarchLaws.OrdersGiven | src/Simulation.cpp:1439-1454 | A fleet that comes out of a completed round is where its order before sent it and has what its script ordered there, and no order without one |
| MarchLaws.MoveArrives | src/Simulation.cpp:1347-1364 | A move asked for in one completed round has taken the fleet to its target after the next completed one, however many rounds were abandoned in between |
| BattleLaws.FightPlaceKeeps | src/Simulation.cpp:871-1024 | What one place keeps: only ships and cannons are missing, a fleet is dead exactly when it has no ship left, a lost planet is owned, bare of cannons and recorded once; what happens there is `PlaceLaws.WarOutcome` |
| BattleLaws.FightPlacesKeep | src/Simulation.cpp:865-1048 | So do all the places together |
| BattleLaws.WarPlacesNeverThrow | src/Simulation.cpp:865-1048 | When in no place a player with an army can be a bystander of two hostile others there, no place throws |
| PlaceLaws.GroupIs | src/Simulation.cpp:849-869 | The group of a place is its owned planet and its fleets in the order of their ids |
| PlaceLaws.OnePlaceTold | src/Simulation.cpp:871-1024 | One place, told from the universe before all fights: contested or untouched, and nothing changes elsewhere |
| PlaceLaws.WarOutcome | src/Simulation.cpp:859-1048 | The fights of a round in closed form: a place two players hold before and after the escapes, with a planet or without, ends as the fight of exactly the fleets that stayed, in id order, and its planet; the other places and the escaped are untouched; the phase throws exactly when one of these fights does |
| PlaceLaws.FleetThroughFights | src/Simulation.cpp:859-1093 | A fleet that stayed in a contested place leaves the phase with the ships that fight left it, or not at all if it has none; any other changes at most its origin |
| LossLaws.PlanetLostIff | src/Simulation.cpp:903-1013 | Told from the state after: a planet is lost in a place exactly when two hostile armies stayed there and it ends without a cannon and without a ship of its owner that stayed |
| LossLaws.BystanderLostIff | src/Simulation.cpp:903-1013 | Told from the state before, for a planet whose owner everybody leaves alone: without a fight there it is safe; with one the fight throws if the planet has a cannon or a fleet that stayed, and otherwise the planet is lost unless the fight throws |
| LossLaws.BystanderPlanetDies | src/fighting.cpp:465-472 | Such a planet under two fleets that fight each other is lost, whatever the draws |
| LossLaws.FightsSettle | src/Simulation.cpp:1059-1093 | From the universe before the fights: lost planets are bare, every other owned planet's parent and every fleet's origin is the nearest ancestor that was not lost, and only ships and cannons are missing otherwise |
| RunLaws.InitialInv | src/UnivManip.cpp:197-221 | The universe of free planets satisfies the invariant |
| RunLaws.ConstructedInv | src/UnivManip.cpp:242-246 | So does the universe with the first players' main planets |
| RunLaws.PlanetTasksDone | src/UnivManip.cpp:740-742 | When scripts run, every planet that played this round holds at most one billion of each resource |
| RunLaws.CompletedRound | src/Simulation.cpp:1439-1454 | A completed round keeps the invariant; each fleet is exactly where the order it had sent it, at most a cell away per axis, and the orders left are of this round |
| RunLaws.OrdersCarriedOut | src/Simulation.cpp:1439-1443 | In every round of every run the orders given before it are carried out as `BuildLaws.PlanetTasksOutcome` and `TaskLaws.FleetTasksOutcome` say, by the fleets there were, on the free planets as they were |
| RoundLaws.FightsOutcome | src/Simulation.cpp:827-1093 | The fight phase and its losses in closed form, and exactly when it throws |
| RoundLaws.RoundOutcome | src/Simulation.cpp:1393-1454 | A whole round told from the universe before it, phase by phase in closed form: it is abandoned exactly when a planet script leaves too much metal or a fight throws, and then only counts |
| RunLaws.AbandonedRound | src/Simulation.cpp:1403-1408 | A round that throws leaves the universe as it was, one round older |
| RunLaws.EveryRunKeepsInv | src/Simulation.cpp:1393-1454 | The invariant holds after any number of rounds, for any scripts, dice and answers |
| RunLaws.RoundCompletesInPlaces | src/Simulation.cpp:1393-1454 | While no free planet is too rich nothing before the fights throws, and the round completes if the fights find no bystander with an army in any place |
| RunLaws.RoundCompletes | src/Simulation.cpp:1393-1454 | In particular it completes when no player of the game can be a bystander, allies included |
| RunLaws.ReachableForest | src/Simulation.cpp:1059-1089 | Every reachable universe is a forest rooted in the main planets |
| RunLaws.ReachablePlanet | src/UnivManip.cpp:705-743 | In every reachable state: levels and pending upgrades at most 23, at most one ship in a hangar and none while one is built, free planets bare and their own parent |
| RunLaws.ReachableFleet | src/Simulation.cpp:1358-1364 | In every reachable state: fresh ids, no empty fleet, places on the map, owned origins, feasible orders |
| SizeLaws.RunKeepsSizes | src/Rules.cpp:346-349 | Along a run in which no size cap is above a number, no fleet is |
| SizeLaws.ReachableProductsFit | src/Rules.cpp:259-265 | Along a run with Cohesion at most 10 the price of every fleet is computed without wrap-around |
| SizeLaws.ReachableLossesExact | src/Rules.cpp:285-290 | In every fight of the first 21474 rounds of such a run the price differences are the true losses, of fleets and planets, and never underflow |
| Universes.Universe.PayFrom | src/UnivManip.cpp:337-349 | Pays in place, and throws exactly as specified |
| Universes.Universe.ActOnPlanet | src/Simulation.cpp:330-368 | Applies a planet script's action in place, fall-through included |
| Universes.Universe.PlayPlanet | src/UnivManip.cpp:705-743 | The planet round in place: task, launch, production, limit, with the outcome `BuildLaws.OnePlanetOutcome` tells |
| Universes.Universe.PlayFleet | src/UnivManip.cpp:747-761 | The fleet round in place |
| Universes.Universe.ExecFleets | src/Simulation.cpp:1215-1364 | Gathering, scripts and the rebuilt fleet map in place, with the outcome `ScriptLaws.FleetsPhaseOutcome` tells |
| Universes.Universe.LosePlanet | src/Rules.cpp:21-37 | Strips a lost planet in place and records its parent, unless it is a main planet |
| Universes.Universe.Lose | src/Simulation.cpp:1059-1089 | Losses and both reassignment loops in place |
| Universes.Universe.FightEverywhere | src/Simulation.cpp:859-1048 | The loop over the places comes to the war `PlaceLaws.WarOutcome` tells, and throws exactly when it does |
| Universes.Universe.ExecFights | src/Simulation.cpp:828-1096 | The whole fight phase in place |
| Universes.Simulation.PlayRound | src/Simulation.cpp:1393-1528 | A round works on a copy, replaces the universe only when it gets to the end, and keeps the invariant |
| Archive.ReverseBytes | src/portable_binary_archive.hpp:36-47 | The two-pointer swap reverses the stretch in place and touches nothing else |
| Archive.ReverseTwice | src/portable_binary_archive.hpp:36-47 | Reversing twice is doing nothing |
| Archive.ByteCountIsFewest | src/portable_binary_oarchive.cpp:38-43 | The size byte is the least number of bytes that can hold the magnitude |
| Archive.SaveTerminatesIff | src/portable_binary_oarchive.cpp:31-43 | The shift loop ends exactly when the value is not the least 64-bit one |
| Archive.Save | src/portable_binary_oarchive.cpp:17-63 | Writes the size byte and the magnitude bytes in the order of the flags, on either host |
| Archive.EncodedForm | src/portable_binary_oarchive.cpp:18-62 | The bytes of an integer: how many magnitude bytes, as few as can hold it, negated for a negative value, then these bytes in the order of the flag |
| Archive.Load | src/portable_binary_iarchive.cpp:22-58 | Reads what the specification decodes, or throws on a size over the limit or a short stream |
| Archive.LoadAfterSave | src/portable_binary_iarchive.cpp:22-58 | Loading a saved value gives it back and leaves the rest of the stream, or is refused exactly when the type is too small |
| Archive.TruncatedNeverLoads | src/portable_binary_iarchive.cpp:23-47 | A stream that ends inside an integer never loads one |
| Archive.LoadAllAfterSaveAll | src/portable_binary_iarchive.cpp:22-58 | A concatenation of saved values loads as the list |
| Archive.HostIndependentIff | src/portable_binary_oarchive.cpp:53-61 | Most significant byte first under the big flag, least under the little one, as the host does without; so the bytes are the same on every host exactly when one flag, and only one, is set |
| Saves.SaveDirectory.RemoveOldSaves | src/Simulation.cpp:1797-1831 | The sliding windows end, and leave exactly the newest save and the oldest of each window |
| Saves.OneSurvivor | src/Simulation.cpp:1806-1831 | A window that held a save holds exactly one afterwards, its oldest |
| Saves.DeletedHasOlderKept | src/Simulation.cpp:1818-1829 | Every deleted save has an older one kept in the same window |
| Saves.DeletedHasCloseKept | src/Simulation.cpp:1777-1830 | Every deleted save has an older kept one at most 33 and a tenth of its own age away |
| Saves.PruneTwice | src/Simulation.cpp:1797-1831 | A second run deletes nothing |
| Saves.KeptIsLogarithmic | src/Simulation.cpp:1811-1829 | With n+2 saves kept their span exceeds 240 (1.1^n - 1) seconds |
| NilTree.CleanPtreeNilRec | src/TypedPtree.cpp:17-33 | The erasing loop returns the cleaned tree and the number of values of the original |
| NilTree.CountPtreeItem | src/TypedPtree.cpp:40-49 | Counts the values that are not nil |
| NilTree.CleanKeepsItems | src/TypedPtree.cpp:17-33 | Cleaning keeps every value at its path, in order |
| NilTree.CleanKeepsCount | src/TypedPtree.cpp:17-49 | Cleaning keeps the recursive count |
| NilTree.CleanLeavesNoDeadBranch | src/TypedPtree.cpp:22-26 | No branch without a value is left at any depth |
| NilTree.CleanShrinksIff | src/TypedPtree.cpp:17-33 | Cleaning changes a tree exactly when it has an empty branch, and then makes it smaller |
| NilTree.CleanTwice | src/TypedPtree.cpp:17-33 | Cleaning is idempotent |
| NilTree.CommitMemory | src/Simulation.cpp:119-134 | A memory is refused exactly when the script's tree, cleaned or not, has too many values; what is kept otherwise is clean and small enough |
| BBEscape.ReplaceAll | frontend/bbcode.py:160-167 | The replacements are done one after the other on the whole text |
| BBEscape.EscapeInOnePass | frontend/bbcode.py:42-48 | The five sequential replacements are one substitution per character |
| BBEscape.EscapeLeavesNoMarkup | frontend/bbcode.py:42-48 | The result has no raw angle bracket or quote |
| BBEscape.EscapeUnchangedIff | frontend/bbcode.py:42-48 | A text is unchanged exactly when it has none of the five characters |
| BBEscape.UnescapeAfterEscape | frontend/bbcode.py:42-48 | Escaping can be undone, so it is injective |
| BBEscape.NormalNewlinesIsLineEnds | frontend/bbcode.py:290-291 | The two newline replacements read each of CR LF, CR and LF as one line end |
| BBEscape.LineEndsClean | frontend/bbcode.py:290-291 | No carriage return is left, and texts without one are unchanged |
| BBEscape.NormaliseTwice | frontend/bbcode.py:290-291 | Normalising twice is normalising once |
| BBTokens.NewlineTokenize | frontend/bbcode.py:169-182 | The split-and-number loop |
| BBTokens.NewlineTokensCanonical | frontend/bbcode.py:169-182 | The tokens join to the text and cut it at every line end and nowhere else |
| BBTokens.NewlineTokensUnique | frontend/bbcode.py:169-182 | No other such token list has that text |
| BBTokens.Tokenize | frontend/bbcode.py:273-328 | The tokenizing loop computes the specified tokens and ends |
| BBTokens.NamesInBrackets | frontend/bbcode.py:254-317 | A plain name in brackets is the start of that tag, with a slash its end, exactly when the table has it, and otherwise text |
| BBTokenLaws.TagsAreTheBrackets | frontend/bbcode.py:294-325 | The tags reported are exactly the recognized ones among the innermost brackets, found by a one-character scan, in order |
| BBTokenLaws.JoinedTokens | frontend/bbcode.py:292-328 | The token texts join to the input, except that a dangling opener repeats the text between the last tag and it |
| BBTokenLaws.LosslessIff | frontend/bbcode.py:292-328 | They join to the input exactly when no opener dangles, or it directly follows the last tag or starts the text |
| BBTokenLaws.LosslessWhenClosed | frontend/bbcode.py:292-328 | In particular whenever every opener has a closer after it |
| BBTokenLaws.RepeatedText | frontend/bbcode.py:319-328 | A text of two characters whose tokens join to three |
| BBFormat.FindClosingToken | frontend/bbcode.py:330-357 | Returns the first token that closes the tag: a newline or same tag where those close, or the first same-tag end that exceeds the starts; else the end of the list |
| BBFormat.FormatTokens | frontend/bbcode.py:404-449 | The recursive formatter ends, and renders the tag tree of its tokens |
| BBFormatLaws.TreeKeepsTokens | frontend/bbcode.py:404-449 | Every token has exactly one place in the tag tree, in order |
| BBFormatLaws.TreeIsNested | frontend/bbcode.py:404-449 | Tags nest: nothing inside a tag closes it, and what follows closes it |
| BBFormatLaws.MatchingEnd | frontend/bbcode.py:339-357 | A tag around a balanced text is closed by its own end |
| BBFormatLaws.PlainTextRendered | frontend/bbcode.py:437-449 | Text outside tags is transformed with the settings of the formatter, a line end becomes its line break |
| BBFormatLaws.OneTagRendered | frontend/bbcode.py:404-449 | Text in a tag is transformed with the settings of the tag, line by line or at once, stripped and broken as the tag asks, and handed to its render function once; a line end right after the tag is shown unless the tag swallows it |
| BBFormatLaws.StandaloneRendered | frontend/bbcode.py:411-413 | A standalone tag is handed to its render function without a text |
| BBFormatLaws.TokensKnown | frontend/bbcode.py:311-316 | Every tag token names a tag of the table, so the formatter's lookup cannot fail |
| BBFormatLaws.Strip | frontend/bbcode.py:459-469 | Joins the data and, unless told otherwise, the line ends |
| BBFormatLaws.InertFormatIsStrip | frontend/bbcode.py:404-469 | With renderers that add nothing, formatting a text is stripping it |

## Left out

- Lua scripts and their bindings: their answers are the fields of `RoundInput`; messages, emissions and event records are not modelled, and memory trees only in `NilTree`.
- MySQL, Thrift, Django views, logging, translation, files, gzip, threads and locks.
- The rest of `round` after the fights (events, scores, tutorials, reports): it reads the universe and writes to the database.
- Planets and fleets are values in the maps of `Universe`; the C++ updates them through references and pointers. What aliasing could do is not captured; a method rewrites the entry instead.
- NilTree.CleanPtreeNilRec: returns the cleaned tree instead of erasing inside nested containers; the erasing loop itself is kept, on one level's list of children.
- The 32-bit round counter and the sum of launch and duration of a task are unbounded; runs are shorter than 2^32 rounds. Fleet ids are unbounded where the source has 64 bits.
- The 16-bit index of an army in a fight: fewer than 2^15 fleets in one place.
- Accumulating a table of counts in an `int` is modelled as two's complement wrap-around, which C++ leaves undefined; `Basics.AccumulateIntExact` says when it cannot happen, and the invariant rules it out for fleets and hangars.
- Skill levels from 60 on, whose cap does not fit in 64 bits and makes the cast throw; player ids above 100000, which `createMainPlanet` rejects.
- 1.6, 1.1 and the growth of save windows are exact fractions; `pow` and the truncation of doubles are not modelled beyond that.
- Random draws, escape probabilities, task durations and experience logarithms: any value. The retry loop of `createMainPlanet` is a draw of a free planet.
- The `do_fight` answers are one map for the whole round; the source asks each pair of players once and remembers the answer, so the map is the memory at the end.
- The removal of empty fleets before the fleet scripts works on a map that the phase replaces at its end, so it has no effect on the result and is not modelled.
- Markup: URL detection, renderers, `_parse_opts`, `strip` and `lower` are parameters; the tag delimiters are the default one-character ones.
