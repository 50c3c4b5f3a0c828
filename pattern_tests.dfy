/**
 * The pattern tests, restated: each void-matcher test becomes a method
 * that runs the same chain and states which tests ran and which action
 * ran with which argument (the test's `actionNWasCalled` flags); the
 * value-matcher test becomes a lemma about `Result`.
 */
module PatternTests {
  import opened Cases
  import opened ReturnMatchers
  import opened Matchers
  import opened Animals

  type AnimalMatcher = Matcher<Animal, AnimalType, PayloadType, Payload>

  /** An action; its effect is what the matcher's log records. */
  function Act(a: Animal): () { () }

  /** `Match(dog).Case(dog, action)`: the action runs. */
  method ObjectMatchesItself() returns (m: AnimalMatcher)
    ensures m.matched && m.log == [Tested(0), Fired(0, Subject(NewDog(Male)))]
  {
    var dog := NewDog(Male);
    m := new Matcher(dog, AnimalTypes());
    m := m.Case(Clause(Equal(dog), Act));
  }

  /** Two cases that both match: only the first action runs; the second test is never evaluated. */
  method OnlyOneMatchIsExecuted() returns (m: AnimalMatcher)
    ensures m.log == [Tested(0), Fired(0, Subject(NewDog(Male)))]
  {
    var dog := NewDog(Male);
    m := new Matcher(dog, AnimalTypes());
    m := m.Case(Clause(Equal(dog), Act));
    m := m.Case(Clause(Equal(dog), Act));
  }

  /** A dog does not equal a chicken: no action runs and nothing fails. */
  method NoMatchPassesOnActions() returns (m: AnimalMatcher)
    ensures !m.matched && m.log == [Tested(0)]
  {
    var dog := NewDog(Male);
    var chicken := NewChicken(Male);
    m := new Matcher(dog, AnimalTypes());
    m := m.Case(Clause(Equal(chicken), Act));
  }

  /** The action of a literal case is handed the subject itself. */
  method ObjectMatchesItselfAndIsPassedToTheActionDelegate() returns (m: AnimalMatcher)
    ensures m.log == [Tested(0), Fired(0, Subject(m.subject))] && m.subject == NewDog(Male)
  {
    var dog := NewDog(Male);
    m := new Matcher(dog, AnimalTypes());
    m := m.Case(Clause(Equal(dog), Act));
  }

  /** No-argument tests: the false case is skipped, the true case fires. */
  method BoolReturningCaseFunctionMatchesOnTrue() returns (m: AnimalMatcher)
    ensures m.log == [Tested(0), Tested(1), Fired(1, Subject(NewDog(Male)))]
  {
    var dog := NewDog(Male);
    m := new Matcher(dog, AnimalTypes());
    m := m.Case(Clause(Always(false), Act));
    m := m.Case(Clause(Always(true), Act));
  }

  /** As above, and the firing action is handed the subject. */
  method BoolReturningCaseFunctionMatchesOnTrueAndPassesTestValue() returns (m: AnimalMatcher)
    ensures m.log == [Tested(0), Tested(1), Fired(1, Subject(m.subject))] && m.subject == NewDog(Male)
  {
    var dog := NewDog(Male);
    m := new Matcher(dog, AnimalTypes());
    m := m.Case(Clause(Always(false), Act));
    m := m.Case(Clause(Always(true), Act));
  }

  /**
   * Subject tests are handed the subject: the first test is false for the
   * dog, the second true for the dog, and the second action gets the dog.
   */
  method TrueReturningPredicateActionIsCalledWithTheRightParameter() returns (m: AnimalMatcher)
    ensures m.log == [Tested(0), Tested(1), Fired(1, Subject(m.subject))] && m.subject == NewDog(Male)
  {
    var dog := NewDog(Male);
    m := new Matcher(dog, AnimalTypes());
    m := m.Case(Clause(Where(d => d != dog), Act));
    m := m.Case(Clause(Where(d => d == dog), Act));
  }

  /** `Case<Chicken>` is skipped for a dog; `Case<Dog>` fires. */
  method TypeMatchingActionIsCalled() returns (m: AnimalMatcher)
    ensures m.log == [Tested(0), Tested(1), Fired(1, Subject(NewDog(Male)))]
  {
    var dog := NewDog(Male);
    m := new Matcher(dog, AnimalTypes());
    m := m.Case(Clause(OfType(ChickenT), Act));
    m := m.Case(Clause(OfType(DogT), Act));
  }

  /** The action of `Case<Dog>` is handed the subject narrowed to a dog. */
  method TypeMatchingActionIsCalledWithCastParameter() returns (m: AnimalMatcher)
    ensures m.log == [Tested(0), Tested(1), Fired(1, Subject(m.subject))] && m.subject.Dog?
  {
    var dog := NewDog(Male);
    m := new Matcher(dog, AnimalTypes());
    m := m.Case(Clause(OfType(ChickenT), Act));
    m := m.Case(Clause(OfType(DogT), Act));
  }

  /**
   * Type test plus gender test: all four cases are tried, the two chicken
   * cases fail on the type test so their gender tests never run, and only
   * the fourth (dog, male) fires.
   */
  method TypeMatchingWithPredicateActionIsCalledWithCastParameter() returns (m: AnimalMatcher)
    ensures m.log == [Tested(0), Tested(1), Tested(2), Narrowed(2), Tested(3), Narrowed(3), Fired(3, Subject(m.subject))]
    ensures m.subject.Dog? && m.subject.gender == Male
  {
    var dog := NewDog(Male);
    m := new Matcher(dog, AnimalTypes());
    m := m.Case(Clause(OfTypeWhere(ChickenT, (c: Animal) => c.gender == Female), Act));
    m := m.Case(Clause(OfTypeWhere(ChickenT, (c: Animal) => c.gender == Male), Act));
    m := m.Case(Clause(OfTypeWhere(DogT, (d: Animal) => d.gender == Female), Act));
    m := m.Case(Clause(OfTypeWhere(DogT, (d: Animal) => d.gender == Male), Act));
  }

  function Take(p: Payload): () { () }

  /** `Case<Dog, Featherings>` does not fire; `Case<Dog, Furs>` fires with the fur `Blond`. */
  method OneFieldExtractedByMatch() returns (m: AnimalMatcher)
    ensures m.log == [Tested(0), Tested(1), Fired(1, Payload(FurArg(Blond)))]
  {
    var dog := NewDogWithFur(Male, Blond);
    m := new Matcher(dog, AnimalTypes());
    m := m.Case(Extraction(DogT, FeatheringsT, Take));
    m := m.Case(Extraction(DogT, FursT, Take));
  }

  /** A value match with no matching case and no default: `Result` is the no-match failure. */
  lemma NoMatchRaisesExceptionOnFunctions()
    ensures
      var dog := NewDog(Male);
      var chicken := NewChicken(Male);
      var m: ReturnMatcher<Animal, AnimalType, PayloadType, Payload, bool> := Open(dog, AnimalTypes());
      m.Case(Clause(Equal(chicken), _ => true)).Result() == NoMatch
  {
  }
}
