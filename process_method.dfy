/** Process methods and the comparison of their user-visible content: two
    methods have equal content when their final flag, name, category,
    description and operator agree, they hold as many entries, and the
    entry container's own comparison accepts them. */
module ProcessMethods {

  /** A process method, through the getters the comparison reads. The
      identifier is not among the compared properties. */
  class ProcessMethod {
    const uuid: string
    const name: string
    const category: string
    const description: string
    const operator: string
    const isFinal: bool
    const numberOfEntries: nat

    constructor (uuid: string, name: string, category: string, description: string, operator: string,
                 isFinal: bool, numberOfEntries: nat)
      ensures this.uuid == uuid && this.name == name && this.category == category
      ensures this.description == description && this.operator == operator
      ensures this.isFinal == isFinal && this.numberOfEntries == numberOfEntries
    {
      this.uuid := uuid;
      this.name := name;
      this.category := category;
      this.description := description;
      this.operator := operator;
      this.isFinal := isFinal;
      this.numberOfEntries := numberOfEntries;
    }

    /** The default `contentEquals`: false for null, true for this very
        method, false at the first of final flag, name, category,
        description, operator and number of entries that differs, and
        otherwise the answer of the entry container's comparison. */
    function ContentEquals(other: ProcessMethod?, containerEquals: (ProcessMethod, ProcessMethod) -> bool): (r: bool)
      ensures other == null ==> !r
      ensures other == this ==> r
      ensures r && other != null && other != this ==> SameProperties(this, other) && containerEquals(this, other)
    {
      if other == null then false
      else if other == this then true
      else if isFinal != other.isFinal then false
      else if name != other.name then false
      else if category != other.category then false
      else if description != other.description then false
      else if operator != other.operator then false
      else if numberOfEntries != other.numberOfEntries then false
      else containerEquals(this, other)
    }
  }

  /** The properties the comparison checks before it asks the container. */
  predicate SameProperties(a: ProcessMethod, b: ProcessMethod) {
    a.isFinal == b.isFinal && a.name == b.name && a.category == b.category
    && a.description == b.description && a.operator == b.operator
    && a.numberOfEntries == b.numberOfEntries
  }

  /** Any differing checked property makes the comparison false, whatever
      the container would answer: it is never asked. */
  lemma DifferingPropertyGivesFalse(a: ProcessMethod, b: ProcessMethod, containerEquals: (ProcessMethod, ProcessMethod) -> bool)
    requires !SameProperties(a, b)
    ensures !a.ContentEquals(b, containerEquals)
    ensures forall other: (ProcessMethod, ProcessMethod) -> bool ::
      a.ContentEquals(b, other) == a.ContentEquals(b, containerEquals)
  {
  }

  /** For two different methods with the same checked properties, the
      answer is the container's, in each direction on its own. */
  lemma ContainerDecides(a: ProcessMethod, b: ProcessMethod, containerEquals: (ProcessMethod, ProcessMethod) -> bool)
    requires a != b && SameProperties(a, b)
    ensures a.ContentEquals(b, containerEquals) == containerEquals(a, b)
    ensures b.ContentEquals(a, containerEquals) == containerEquals(b, a)
  {
  }

  /** The comparison is symmetric exactly where the container's is: it is
      symmetric for every pair of methods when the container comparison is,
      and for a pair that agrees on every checked property it is symmetric
      only if the container answers alike both ways. */
  lemma SymmetryComesFromTheContainer(a: ProcessMethod, b: ProcessMethod, containerEquals: (ProcessMethod, ProcessMethod) -> bool)
    ensures (forall x, y :: containerEquals(x, y) == containerEquals(y, x)) ==>
      a.ContentEquals(b, containerEquals) == b.ContentEquals(a, containerEquals)
    ensures a != b && SameProperties(a, b) && containerEquals(a, b) != containerEquals(b, a) ==>
      a.ContentEquals(b, containerEquals) != b.ContentEquals(a, containerEquals)
  {
    if a != b && SameProperties(a, b) {
      ContainerDecides(a, b, containerEquals);
    }
  }
}
