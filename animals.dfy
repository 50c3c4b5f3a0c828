/**
 * The animal hierarchy that the pattern tests match on.  `Animal` is
 * abstract with exactly two concrete kinds, so a subject is a two-arm
 * tagged value; the runtime type tests of the engine become a switch on
 * the tag.
 */
module Animals {
  import opened Wrappers
  import opened Cases

  datatype Furs = Unspecified | Black | Brown | Blond | Spotted
  datatype Featherings = Unspecified | White | Black | Blue | Yellow | Red | Flecked
  datatype Gender = Male | Female

  /** A dog or a chicken; `gender` is fixed at construction and read back unchanged. */
  datatype Animal =
    | Dog(gender: Gender, fur: Furs, isSearchAndRescueDog: bool)
    | Chicken(gender: Gender, feathering: Featherings)

  /** `new Dog(gender)`: unspecified fur, not a search-and-rescue dog. */
  function NewDog(gender: Gender): (a: Animal)
    ensures a.Dog? && a.gender == gender
    ensures a.fur == Furs.Unspecified && !a.isSearchAndRescueDog
  {
    NewDogWithFur(gender, Furs.Unspecified)
  }

  /** `new Dog(gender, fur)`: keeps the fur, not a search-and-rescue dog. */
  function NewDogWithFur(gender: Gender, fur: Furs): (a: Animal)
    ensures a.Dog? && a.gender == gender && a.fur == fur && !a.isSearchAndRescueDog
  {
    NewSearchAndRescueDog(gender, fur, false)
  }

  /** `new Dog(gender, fur, isSearchAndRescueDog)`. */
  function NewSearchAndRescueDog(gender: Gender, fur: Furs, isSearchAndRescueDog: bool): (a: Animal)
    ensures a.Dog? && a.gender == gender && a.fur == fur && a.isSearchAndRescueDog == isSearchAndRescueDog
  {
    Dog(gender, fur, isSearchAndRescueDog)
  }

  /** `new Chicken(gender)`: unspecified feathering. */
  function NewChicken(gender: Gender): (a: Animal)
    ensures a.Chicken? && a.gender == gender && a.feathering == Featherings.Unspecified
  {
    NewChickenWithFeathering(gender, Featherings.Unspecified)
  }

  /** `new Chicken(gender, feathering)`. */
  function NewChickenWithFeathering(gender: Gender, feathering: Featherings): (a: Animal)
    ensures a.Chicken? && a.gender == gender && a.feathering == feathering
  {
    Chicken(gender, feathering)
  }

  /** The types a case may name: the abstract base and its two subclasses. */
  datatype AnimalType = AnimalT | DogT | ChickenT

  /** `a is t`: every animal is an Animal; dogs and chickens are only themselves. */
  function IsA(a: Animal, t: AnimalType): (b: bool)
    ensures b <==> t == AnimalT || (t == DogT && a.Dog?) || (t == ChickenT && a.Chicken?)
  {
    match t
    case AnimalT => true
    case DogT => a.Dog?
    case ChickenT => a.Chicken?
  }

  /** The payload types an extraction case may ask for. */
  datatype PayloadType = FursT | FeatheringsT
  datatype Payload = FurArg(fur: Furs) | FeatheringArg(feathering: Featherings)

  function TypeOfPayload(p: Payload): PayloadType
  {
    match p
    case FurArg(_) => FursT
    case FeatheringArg(_) => FeatheringsT
  }

  /**
   * The IMatchable capability: a dog offers its fur (IMatchable<Furs>), a
   * chicken its feathering (IMatchable<Featherings>); any other payload
   * type is not offered.
   */
  function GetArg(a: Animal, u: PayloadType): (p: Option<Payload>)
    ensures p.Some? <==> (a.Dog? && u == FursT) || (a.Chicken? && u == FeatheringsT)
    ensures p.Some? ==> TypeOfPayload(p.value) == u
    ensures p.Some? && a.Dog? ==> p.value == FurArg(a.fur)
    ensures p.Some? && a.Chicken? ==> p.value == FeatheringArg(a.feathering)
  {
    match (a, u)
    case (Dog(_, fur, _), FursT) => Some(FurArg(fur))
    case (Chicken(_, feathering), FeatheringsT) => Some(FeatheringArg(feathering))
    case _ => None
  }

  /** The runtime type information of an Animal subject. */
  function AnimalTypes(): TypeInfo<Animal, AnimalType, PayloadType, Payload>
  {
    TypeInfo(IsA, GetArg)
  }

  /**
   * Type and extraction cases on animals: `Case<Dog>` holds for dogs only
   * and `Case<Chicken>` for chickens only; a type case with a test also
   * needs the test of the narrowed value; `Case<Dog, U>` holds for a dog
   * exactly when U is Furs and hands over its fur, `Case<Chicken, U>` for a
   * chicken exactly when U is Featherings and hands over its feathering.
   */
  lemma TypeCasesOnAnimals<R>(a: Animal, p: Animal -> bool, f: Animal -> R, u: PayloadType, g: Payload -> R)
    ensures Holds(AnimalTypes(), a, Clause(OfType(DogT), f)) <==> a.Dog?
    ensures Holds(AnimalTypes(), a, Clause(OfType(ChickenT), f)) <==> a.Chicken?
    ensures Holds(AnimalTypes(), a, Clause(OfType(AnimalT), f))
    ensures Holds(AnimalTypes(), a, Clause(OfTypeWhere(DogT, p), f)) <==> a.Dog? && p(a)
    ensures Holds(AnimalTypes(), a, Clause(OfTypeWhere(ChickenT, p), f)) <==> a.Chicken? && p(a)
    ensures Holds(AnimalTypes(), a, Extraction(DogT, u, g)) <==> a.Dog? && u == FursT
    ensures Holds(AnimalTypes(), a, Extraction(ChickenT, u, g)) <==> a.Chicken? && u == FeatheringsT
    ensures a.Dog? && u == FursT ==> Fire(AnimalTypes(), a, Extraction(DogT, u, g)) == g(FurArg(a.fur))
    ensures a.Chicken? && u == FeatheringsT ==>
      Fire(AnimalTypes(), a, Extraction(ChickenT, u, g)) == g(FeatheringArg(a.feathering))
  {
  }
}
