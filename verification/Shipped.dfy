/** The catalogue the game ships, and what the exactness of the decay rests on. */
module Shipped {
  import opened Wrappers
  import opened Decay
  import opened FirstHit
  import opened Reads
  import opened Events
  import opened Replay
  import opened Verbs

  const HP := Stat("hp", 0.0, 100.0, 65.0, 1.0, false, true,
    [Penalty("beer", 20.0, false, 6.0), Penalty("bladder", 80.0, true, 6.0)])
  const BEER := Stat("beer", 0.0, 100.0, 60.0, 4.0, false, false, [])
  const BLADDER := Stat("bladder", 0.0, 100.0, 0.0, -5.0, false, false, [])
  const BEERS_DRUNK := Stat("beers_drunk", 0.0, 1000000.0, 0.0, 0.0, true, false, [])
  const KEYS_FOUND := Stat("keys_found", 0.0, 1000000.0, 0.0, 0.0, true, false, [])
  const SHITS_TAKEN := Stat("shits_taken", 0.0, 1000000.0, 0.0, 0.0, true, false, [])

  const STATS: seq<Stat> := [HP, BEER, BLADDER, BEERS_DRUNK, KEYS_FOUND, SHITS_TAKEN]

  const ACTIONS: seq<Action> := [
    Action("drink",
      [StatDelta("beer", 40.0), StatDelta("hp", 15.0), StatDelta("bladder", 25.0), StatDelta("beers_drunk", 1.0)],
      false, false, "", 0.0),
    Action("relieve", [StatDelta("bladder", -100.0), StatDelta("shits_taken", 1.0)], false, false, "bladder", 15.0),
    Action("claim", [StatDelta("keys_found", 1.0)], false, false, "", 0.0),
    Action("revive", [], true, true, "", 0.0)]

  lemma Lookup(head: Stat, tail: seq<Stat>, key: string)
    ensures StatByKey([head] + tail, key) == if head.key == key then Some(head) else StatByKey(tail, key)
  {
    assert ([head] + tail)[1..] == tail;
  }

  lemma ShippedLookups()
    ensures StatByKey(STATS, "hp") == Some(HP)
    ensures StatByKey(STATS, "beer") == Some(BEER)
    ensures StatByKey(STATS, "bladder") == Some(BLADDER)
  {
    assert STATS == [HP] + ([BEER] + ([BLADDER] + STATS[3..]));
    KeysDiffer();
    Lookup(HP, STATS[1..], "beer");
    Lookup(BEER, STATS[2..], "beer");
    Lookup(HP, STATS[1..], "bladder");
    Lookup(BEER, STATS[2..], "bladder");
    Lookup(BLADDER, STATS[3..], "bladder");
  }

  lemma KeysDiffer()
    ensures forall i, j :: 0 <= i < j < |STATS| ==> STATS[i].key != STATS[j].key
    ensures |"hp"| == 2 && |"beer"| == 4 && |"bladder"| == 7
  {
    assert |HP.key| == 2 && |BEER.key| == 4 && |BLADDER.key| == 7;
    assert BEERS_DRUNK.key[0] == 'b' && |BEERS_DRUNK.key| == 11;
    assert KEYS_FOUND.key[0] == 'k' && |KEYS_FOUND.key| == 10;
    assert SHITS_TAKEN.key[0] == 's' && |SHITS_TAKEN.key| == 11;
  }

  /** The shipped catalogue meets every condition the exactness of the decay needs. */
  lemma ShippedIsWellFormed()
    ensures WellFormed(STATS)
  {
    hide StatByKey;
    ShippedLookups();
    KeysDiffer();
    assert DriverFits(STATS, HP.penalties[0]);
    assert DriverFits(STATS, HP.penalties[1]);
    assert StatFits(STATS, HP) && StatFits(STATS, BEER) && StatFits(STATS, BLADDER);
    assert StatFits(STATS, BEERS_DRUNK) && StatFits(STATS, KEYS_FOUND) && StatFits(STATS, SHITS_TAKEN);
    forall i | 0 <= i < |STATS| ensures StatFits(STATS, STATS[i]) {}
  }

  /** The rows of a pet just born: sixty-five of health, sixty of beer and an empty bladder. */
  predicate AsBorn(rows: Rows, born: real) {
    && "hp" in rows && rows["hp"] == StatRow("hp", 65.0, born)
    && "beer" in rows && rows["beer"] == StatRow("beer", 60.0, born)
    && "bladder" in rows && rows["bladder"] == StatRow("bladder", 0.0, born)
  }

  lemma NewbornOnsets(rows: Rows, born: real)
    requires AsBorn(rows, born)
    ensures Onset(STATS, HP.penalties[0], born, rows) == Some(born + 10.0)
    ensures Onset(STATS, HP.penalties[1], born, rows) == Some(born + 16.0)
  {
    hide StatByKey;
    ShippedLookups();
    KeysDiffer();
  }

  /** The untended pet of the design note: never touched, dead at exactly seventeen hours, ten of them at one point an
      hour, six at seven and the last at thirteen. */
  lemma UntendedPetDiesAtSeventeen(rows: Rows, born: real)
    requires AsBorn(rows, born)
    ensures DeadAtWith(STATS, HP, 65.0, born, rows) == Some(born + 17.0)
    ensures AtWith(STATS, HP, 65.0, born, born + 10.0, rows) == 55.0
    ensures AtWith(STATS, HP, 65.0, born, born + 16.0, rows) == 13.0
  {
    hide Onset, AsBorn;
    NewbornOnsets(rows, born);
    var ps, steps := HP.penalties, [Step(born + 10.0, 6.0), Step(born + 16.0, 6.0)];
    assert StepsOf(STATS, ps, 1, born, rows) == [Step(born + 10.0, 6.0)];
    assert StepsOf(STATS, ps, 2, born, rows) == steps;
    SeventeenHours(steps, born);
    assert PenaltyDrop(STATS, ps, 1, born, born + 10.0, rows) == 0.0;
    assert PenaltyDrop(STATS, ps, 1, born, born + 16.0, rows) == 36.0;
    assert PenaltyDrop(STATS, ps, 2, born, born + 10.0, rows) == 0.0;
    assert PenaltyDrop(STATS, ps, 2, born, born + 16.0, rows) == 36.0;
  }

  lemma SeventeenHours(steps: seq<Step>, born: real)
    requires steps == [Step(born + 10.0, 6.0), Step(born + 16.0, 6.0)]
    ensures InsertAll(steps) == steps
    ensures Walk(born, 1.0, 65.0, steps) == Some(born + 17.0)
  {
    assert steps[1..] == [Step(born + 16.0, 6.0)] && steps[1..][1..] == [];
    assert InsertAll(steps[1..]) == [Step(born + 16.0, 6.0)];
    assert Walk(born + 16.0, 13.0, 13.0, []) == Some(born + 17.0);
    assert Walk(born + 10.0, 7.0, 55.0, steps[1..]) == Some(born + 17.0);
  }

  const CATALOGUE: Catalogue := Catalogue(STATS, ACTIONS)

  /** Every shipped stat uses up its scale within the longest Duration, or never moves: no read of it ever saturates
      into a wrong answer. */
  lemma ShippedExhausts()
    ensures forall i :: 0 <= i < |STATS| ==> Exhausts(STATS[i])
  {
    forall i | 0 <= i < |STATS| ensures Exhausts(STATS[i]) {}
  }

  lemma BornAsShipped(born: real)
    ensures AsBorn(Genesis(STATS, born).rows, born) && StampedBy(Genesis(STATS, born).rows, born)
    ensures forall k :: k in Genesis(STATS, born).rows ==>
              (StatByKey(STATS, k).Some? && StatByKey(STATS, k).value.fatal ==> k == "hp")
  {
    hide Genesis;
    KeysDiffer();
    ANewbornHasEveryStat(STATS, born);
    assert STATS[0] == HP && STATS[1] == BEER && STATS[2] == BLADDER;
  }

  /** Of the game as it ships: a pet that is born and never tended is alive for seventeen hours, and died at the end of
      them whenever anybody looks after that. */
  lemma AnUntendedPetLivesSeventeenHours(born: real, now: real)
    requires born <= now
    ensures Advance(STATS, Genesis(STATS, born), now).diedAt == if now < born + 17.0 then None else Some(born + 17.0)
  {
    hide Advance, Genesis, AtWith, DeadAtWith, StatByKey, AsBorn;
    var pet := Genesis(STATS, born);
    BornAsShipped(born);
    UntendedPetDiesAtSeventeen(pet.rows, born);
    DeathIsThreshold(STATS, HP, 65.0, born, pet.rows, now);
    AnAdvanceIsARead(STATS, pet, now);
    ShippedLookups();
    NewbornHealth(pet.rows, born);
    assert pet.diedAt.None? by { BornAlive(born); }
    forall k, d | DiesAt(STATS, pet.rows, k, now, d) ensures k == "hp" && d == born + 17.0 && now >= born + 17.0 {}
    if now >= born + 17.0 { assert DiesAt(STATS, pet.rows, "hp", now, born + 17.0); }
  }

  lemma NewbornHealth(rows: Rows, born: real)
    requires AsBorn(rows, born)
    ensures "hp" in rows && rows["hp"] == StatRow("hp", 65.0, born)
  {}

  lemma BornAlive(born: real)
    ensures Genesis(STATS, born).diedAt.None?
  {}

  /** Of the game as it ships, with no horizon and no condition left: for every ordered history of looks, checkpoints
      and presses, however long, the folded log brought to any later instant is the live pet brought to it. */
  lemma ShippedReplayEqualsLive(born: real, hs: seq<Happening>, now: real)
    requires InOrder(hs, born, now)
    ensures var pet := LiveRun(CATALOGUE, Pet(Genesis(STATS, born), []), hs);
            Advance(STATS, Fold(CATALOGUE, Genesis(STATS, born), pet.log), now) == Advance(STATS, pet.state, now)
  {
    hide WellFormed, AllInReach, Fold, Advance, LiveRun, InOrder, Genesis, STATS, ACTIONS;
    ShippedExhausts();
    ShippedIsWellFormed();
    AllInReachIf(STATS, born, now);
    assert CATALOGUE.stats == STATS;
    ReplayEqualsLive(CATALOGUE, born, hs, now);
  }

  lemma AllInReachIf(stats: seq<Stat>, asOf: real, t: real)
    requires forall i :: 0 <= i < |stats| ==> Exhausts(stats[i])
    ensures AllInReach(stats, asOf, t)
  {}

  const DRINK: Action := ACTIONS[0]

  lemma DrinkIsNamed()
    ensures Named(ACTIONS, "drink", DRINK) && !DRINK.startsOver && !DRINK.revivesFatal && DRINK.needsStat == ""
  {
    hide STATS;
    assert ACTIONS[0] == DRINK && DRINK.key == "drink";
  }

  lemma TallyLookup()
    ensures StatByKey(STATS, "beers_drunk") == Some(BEERS_DRUNK)
  {
    hide StatByKey;
    KeysDiffer();
    assert STATS[3] == BEERS_DRUNK;
    FirstStatFound(STATS, 3);
  }

  /** What a drink moves, and that it names nothing twice. */
  lemma DrinkEffects()
    ensures var es := DRINK.effects;
            && |es| == 4 && es[0] == StatDelta("beer", 40.0) && es[1] == StatDelta("hp", 15.0)
            && es[2] == StatDelta("bladder", 25.0) && es[3] == StatDelta("beers_drunk", 1.0)
    ensures forall i, j, k :: Names(DRINK.effects, i, k) && Names(DRINK.effects, j, k) ==> i == j
  {
    hide STATS;
    var es := DRINK.effects;
    assert |es[0].statKey| == 4 && |es[1].statKey| == 2 && |es[2].statKey| == 7 && |es[3].statKey| == 11;
  }

  lemma DrinkIsKnown()
    ensures forall i :: 0 <= i < |DRINK.effects| ==> Known(STATS, DRINK.effects[i].statKey)
  {
    hide StatByKey, STATS, DRINK, Known;
    DrinkEffects();
    ShippedLookups();
    TallyLookup();
    StatFound(STATS, "beer");
    StatFound(STATS, "hp");
    StatFound(STATS, "bladder");
    StatFound(STATS, "beers_drunk");
  }

  lemma ShippedScales()
    ensures forall i :: 0 <= i < |STATS| ==> STATS[i].min <= STATS[i].max
  {}

  /** Each of the four is named once. */
  lemma DrinkNamesEachOnce()
    ensures var es := DRINK.effects;
            && |es| == 4 && NamesAlone(es, 4, 0, "beer") && NamesAlone(es, 4, 1, "hp")
            && NamesAlone(es, 4, 2, "bladder") && NamesAlone(es, 4, 3, "beers_drunk")
  {
    hide DRINK;
    DrinkEffects();
    var es := DRINK.effects;
    assert Names(es, 0, "beer") && Names(es, 1, "hp") && Names(es, 2, "bladder") && Names(es, 3, "beers_drunk");
  }

  lemma ADrinkIsAccepted(s: Snapshot, at: real)
    requires Advance(STATS, s, at).diedAt.None?
    ensures var next, r := Advance(STATS, s, at), Apply(CATALOGUE, s, Event("drink", at));
            && r.Ok? && r.value.rows.Keys == next.rows.Keys
            && forall k :: k in next.rows ==> MovesAsNamed(STATS, next.rows, r.value.rows, DRINK.effects, at, k)
  {
    hide Advance, Apply, Named, STATS, ACTIONS, DRINK, Known, MovesAsNamed;
    DrinkIsNamed();
    DrinkIsKnown();
    ShippedScales();
    var e := Event("drink", at);
    assert CATALOGUE.stats == STATS && CATALOGUE.actions == ACTIONS;
    EachRefusalOnItsOwnCondition(CATALOGUE, s, e, DRINK);
    AnAcceptedVerbMoves(CATALOGUE, s, e, DRINK);
  }

  /** A drink, for a living pet at any moment: forty of beer, fifteen of health and twenty-five of bladder, as far as
      the scales go, and one more on the tally. */
  lemma ADrink(s: Snapshot, at: real)
    requires var next := Advance(STATS, s, at);
             next.diedAt.None? && "beer" in next.rows && "hp" in next.rows && "bladder" in next.rows
             && "beers_drunk" in next.rows
    ensures var next, r := Advance(STATS, s, at), Apply(CATALOGUE, s, Event("drink", at));
            && r.Ok? && r.value.rows.Keys == next.rows.Keys
            && Brought(r.value.rows["beer"].value, next.rows["beer"].value + 40.0, 0.0, 100.0)
            && Brought(r.value.rows["hp"].value, next.rows["hp"].value + 15.0, 0.0, 100.0)
            && Brought(r.value.rows["bladder"].value, next.rows["bladder"].value + 25.0, 0.0, 100.0)
            && Brought(r.value.rows["beers_drunk"].value, next.rows["beers_drunk"].value + 1.0, 0.0, 1000000.0)
  {
    hide Advance, Apply, Brought, StatByKey, STATS, DRINK, NamesAlone;
    ADrinkIsAccepted(s, at);
    DrinkEffects();
    DrinkNamesEachOnce();
    ShippedLookups();
    TallyLookup();
  }
}
