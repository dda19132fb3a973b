/** The flower exercise: the flowers picked in a garden and in a meadow,
    their sets, and the union, intersection and both differences. */
module Garden {

  /** The flowers picked in the garden, with repetitions. */
  const GardenPicked: seq<string> := ["ромашка", "роза", "одуванчик", "ромашка", "гладиолус", "подсолнух", "роза"]

  /** The flowers picked in the meadow, with repetitions. */
  const MeadowPicked: seq<string> := ["клевер", "одуванчик", "ромашка", "клевер", "мак", "одуванчик", "ромашка"]

  /** The six sets `flowers()` returns. */
  datatype FlowerSets = FlowerSets(gardenSet: set<string>, meadowSet: set<string>, allFlowers: set<string>,
                                   commonFlowers: set<string>, onlyGarden: set<string>, onlyMeadow: set<string>)

  /** The sets of two tuples of flowers and what the set operators give:
      everything that grows somewhere, what grows in both places, and what
      grows in only one of them. */
  function SetsOf(garden: seq<string>, meadow: seq<string>): (r: FlowerSets)
    ensures forall f :: f in r.gardenSet <==> f in garden
    ensures forall f :: f in r.meadowSet <==> f in meadow
    ensures forall f :: f in r.allFlowers <==> f in garden || f in meadow
    ensures forall f :: f in r.commonFlowers <==> f in garden && f in meadow
    ensures forall f :: f in r.onlyGarden <==> f in garden && f !in meadow
    ensures forall f :: f in r.onlyMeadow <==> f in meadow && f !in garden
  {
    var gardenSet := set f | f in garden;
    var meadowSet := set f | f in meadow;
    FlowerSets(gardenSet, meadowSet, gardenSet + meadowSet, gardenSet * meadowSet,
               gardenSet - meadowSet, meadowSet - gardenSet)
  }

  /** `flowers()`: seven kinds grow somewhere. */
  function Flowers(): (r: FlowerSets)
    ensures r.allFlowers == {"ромашка", "роза", "одуванчик", "гладиолус", "подсолнух", "клевер", "мак"}
  {
    SetsOf(GardenPicked, MeadowPicked)
  }

  /** The common flowers lie in both sets, each difference misses the other
      set, and the union splits into the two differences and the common part,
      which do not overlap. */
  lemma SetAlgebra(garden: seq<string>, meadow: seq<string>)
    ensures var r := SetsOf(garden, meadow);
      r.commonFlowers <= r.gardenSet && r.commonFlowers <= r.meadowSet &&
      r.onlyGarden !! r.meadowSet && r.onlyMeadow !! r.gardenSet &&
      r.allFlowers == r.onlyGarden + r.commonFlowers + r.onlyMeadow &&
      r.onlyGarden !! r.commonFlowers && r.onlyMeadow !! r.commonFlowers && r.onlyGarden !! r.onlyMeadow
  {
    var r := SetsOf(garden, meadow);
    assert r.allFlowers == r.onlyGarden + r.commonFlowers + r.onlyMeadow by {
      forall f | f in r.allFlowers
        ensures f in r.onlyGarden + r.commonFlowers + r.onlyMeadow
      {
      }
    }
  }

  /** The sets of the two tuples: the repeated flowers collapse. */
  lemma PickedSets()
    ensures Flowers().gardenSet == {"ромашка", "роза", "одуванчик", "гладиолус", "подсолнух"}
    ensures Flowers().meadowSet == {"клевер", "одуванчик", "ромашка", "мак"}
  {
    var r := Flowers();
    assert r.gardenSet == {"ромашка", "роза", "одуванчик", "гладиолус", "подсолнух"};
    assert r.meadowSet == {"клевер", "одуванчик", "ромашка", "мак"};
  }

  /** The garden gives five kinds and the meadow four. */
  lemma PickedKinds()
    ensures |Flowers().gardenSet| == 5 && |Flowers().meadowSet| == 4
  {
    PickedSets();
  }

  /** Camomile and dandelion grow in both places; the rose, the gladiolus and
      the sunflower only in the garden; clover and poppy only in the meadow. */
  lemma FlowersValues()
    ensures Flowers().commonFlowers == {"одуванчик", "ромашка"}
    ensures Flowers().onlyGarden == {"роза", "гладиолус", "подсолнух"}
    ensures Flowers().onlyMeadow == {"клевер", "мак"}
    ensures "ромашка" in Flowers().commonFlowers && "роза" in Flowers().onlyGarden
  {
    PickedSets();
  }
}
