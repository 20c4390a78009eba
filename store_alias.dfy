/**
 * The alias reasoning of the unused-store pass: when an earlier store and a later
 * operation are known not to overlap (`KnownUnrelated`), and when a later write is
 * known to overwrite every byte or slot of an earlier one (`KnownCovered`).
 *
 * The knowledge base is an oracle over variable names.  `Sound` says what its
 * answers promise about the run-time values of the names; under it, the two
 * decisions are proved to mean real disjointness and real containment of the
 * accessed address ranges.
 */
module StoreAlias {
  import opened Yul
  import opened Evm

  const Modulus: nat := 0x1_0000_0000_0000_0000_0000_0000_0000_0000_0000_0000_0000_0000_0000_0000_0000_0000

  /** An EVM word. */
  type U256 = x: nat | x < Modulus

  /** Addition of EVM words, wrapping around at 2^256. */
  function Add(a: U256, b: U256): U256
  {
    (a + b) % Modulus
  }

  /**
   * A read or write of a location.  `start` and `length` name SSA variables (or
   * the sentinel names of the constants 0, 1 and 32); an absent one is unknown.
   */
  datatype Operation = Operation(
    location: Location,
    effect: Effect,
    start: Option<Name>,
    length: Option<Name>)

  /** The queries the pass puts to the knowledge base. */
  datatype Knowledge = Knowledge(
    valueIfKnownConstant: Name -> Option<U256>,
    knownToBeZero: Name -> bool,
    knownToBeEqual: (Name, Name) -> bool,
    knownToBeDifferent: (Name, Name) -> bool,
    knownToBeDifferentByAtLeast32: (Name, Name) -> bool)

  /** The run-time value of every name at the point of the query. */
  type Valuation = Name -> U256

  /** What the knowledge base's answers promise about the run-time values. */
  ghost predicate Sound(k: Knowledge, val: Valuation)
  {
    && (forall x :: k.valueIfKnownConstant(x).Some? ==> val(x) == k.valueIfKnownConstant(x).value)
    && (forall x :: k.knownToBeZero(x) ==> val(x) == 0)
    && (forall x, y :: k.knownToBeEqual(x, y) ==> val(x) == val(y))
    && (forall x, y :: k.knownToBeDifferent(x, y) ==> val(x) != val(y))
    && (forall x, y :: k.knownToBeDifferentByAtLeast32(x, y) ==>
          32 <= (val(x) - val(y)) % Modulus <= Modulus - 32)
  }

  /** The oracle answers "different" and "different by at least 32" symmetrically. */
  ghost predicate Symmetric(k: Knowledge)
  {
    && (forall x, y :: k.knownToBeDifferent(x, y) == k.knownToBeDifferent(y, x))
    && (forall x, y :: k.knownToBeDifferentByAtLeast32(x, y) == k.knownToBeDifferentByAtLeast32(y, x))
  }

  predicate KnownZeroLength(k: Knowledge, op: Operation)
  {
    op.length.Some? && k.knownToBeZero(op.length.value)
  }

  /**
   * `a` has constant start and length, `b` a constant start, and `a` ends (without
   * wrapping around) at or before the start of `b`.
   */
  predicate EndsBefore(k: Knowledge, a: Operation, b: Operation)
  {
    a.start.Some? && a.length.Some? && b.start.Some? &&
    var length1 := k.valueIfKnownConstant(a.length.value);
    var start1 := k.valueIfKnownConstant(a.start.value);
    var start2 := k.valueIfKnownConstant(b.start.value);
    && length1.Some? && start1.Some? && start2.Some?
    && Add(start1.value, length1.value) >= start1.value
    && Add(start1.value, length1.value) <= start2.value
  }

  predicate AtMostWord(k: Knowledge, length: Name)
  {
    var c := k.valueIfKnownConstant(length);
    c.Some? && c.value <= 32
  }

  /** Both lengths are known constants of at most 32 and the starts are at least 32 apart. */
  predicate WordsApart(k: Knowledge, op1: Operation, op2: Operation)
  {
    && op1.start.Some? && op1.length.Some? && op2.start.Some? && op2.length.Some?
    && AtMostWord(k, op1.length.value) && AtMostWord(k, op2.length.value)
    && k.knownToBeDifferentByAtLeast32(op1.start.value, op2.start.value)
  }

  /** The two operations are known not to access a common byte or slot. */
  predicate KnownUnrelated(k: Knowledge, op1: Operation, op2: Operation)
    ensures op1.location != op2.location ==> KnownUnrelated(k, op1, op2)
    ensures op1.location == op2.location && KnownUnrelated(k, op1, op2) ==>
      (op1.start.Some? && op2.start.Some?)
      || (op1.location == Memory && (KnownZeroLength(k, op1) || KnownZeroLength(k, op2)))
  {
    if op1.location != op2.location then true
    else if op1.location == Storage then
      op1.start.Some? && op2.start.Some? && k.knownToBeDifferent(op1.start.value, op2.start.value)
    else
      assert op1.location == Memory;
      || KnownZeroLength(k, op1) || KnownZeroLength(k, op2)
      || EndsBefore(k, op1, op2) || EndsBefore(k, op2, op1)
      || WordsApart(k, op1, op2)
  }

  /** Every byte or slot `covered` writes is known to be written by `covering`. */
  predicate KnownCovered(k: Knowledge, covered: Operation, covering: Operation)
    ensures KnownCovered(k, covered, covering) ==> covered.location == covering.location
    ensures covered.location == Memory && covering.location == Memory && KnownZeroLength(k, covered) ==>
      KnownCovered(k, covered, covering)
  {
    if covered.location != covering.location then false
    else if covered.start.Some? && covered.start == covering.start
         && covered.length.Some? && covered.length == covering.length then true
    else if covered.location == Memory then
      if KnownZeroLength(k, covered) then true
      else if covered.start.None? || covering.start.None? || covered.length.None? || covering.length.None? then false
      else
        var coveredLength := k.valueIfKnownConstant(covered.length.value);
        var coveringLength := k.valueIfKnownConstant(covering.length.value);
        var coveredStart := k.valueIfKnownConstant(covered.start.value);
        var coveringStart := k.valueIfKnownConstant(covering.start.value);
        || (k.knownToBeEqual(covered.start.value, covering.start.value)
            && coveredLength.Some? && coveringLength.Some? && coveredLength.value <= coveringLength.value)
        || (coveredStart.Some? && coveringStart.Some? && coveredLength.Some? && coveringLength.Some?
            && coveringStart.value <= coveredStart.value
            && Add(coveringStart.value, coveringLength.value) >= coveringStart.value
            && Add(coveredStart.value, coveredLength.value) >= coveredStart.value
            && Add(coveredStart.value, coveredLength.value) <= Add(coveringStart.value, coveringLength.value))
    else false
  }

  // ---------------------------------------------------------------------------
  // What an operation touches at run time.

  /**
   * Address `a` may be accessed by `op`.  A memory access of known start and
   * unknown length may touch anything from its start on; one of known zero length
   * touches nothing; one of unknown start may touch anything.  A storage access is
   * one slot.
   */
  ghost predicate MayTouch(val: Valuation, op: Operation, a: nat)
  {
    match op.location
    case Storage => op.start.None? || a == val(op.start.value)
    case Memory =>
      if op.length.Some? && val(op.length.value) == 0 then false
      else if op.start.None? then true
      else if op.length.None? then val(op.start.value) <= a
      else val(op.start.value) <= a < val(op.start.value) + val(op.length.value)
  }

  /** Address `a` is certainly accessed by `op`: only when its extent is known. */
  ghost predicate MustTouch(val: Valuation, op: Operation, a: nat)
  {
    match op.location
    case Storage => op.start.Some? && a == val(op.start.value)
    case Memory =>
      op.start.Some? && op.length.Some? &&
      val(op.start.value) <= a < val(op.start.value) + val(op.length.value)
  }

  ghost predicate Disjoint(val: Valuation, op1: Operation, op2: Operation)
  {
    forall a: nat :: !(MayTouch(val, op1, a) && MayTouch(val, op2, a))
  }

  ghost predicate Covers(val: Valuation, covering: Operation, covered: Operation)
  {
    forall a: nat :: MayTouch(val, covered, a) ==> MustTouch(val, covering, a)
  }

  // ---------------------------------------------------------------------------
  // Wrap-around arithmetic.

  /** The no-overflow guard `a + b >= a` of the source really rules out wrapping. */
  lemma AddNoWrap(a: U256, b: U256)
    ensures Add(a, b) >= a ==> Add(a, b) == a + b
    ensures a + b < Modulus ==> Add(a, b) == a + b
  {
    if a + b >= Modulus {
      assert (a + b) % Modulus == a + b - Modulus;
    }
  }

  /** A distance of at least 32 in both directions modulo 2^256 is a distance of at least 32. */
  lemma ApartBy32(x: U256, y: U256)
    requires 32 <= (x - y) % Modulus <= Modulus - 32
    ensures x >= y + 32 || y >= x + 32
  {
    if x >= y {
      assert (x - y) % Modulus == x - y;
    } else {
      assert (x - y) % Modulus == x - y + Modulus;
    }
  }

  // ---------------------------------------------------------------------------
  // Properties of the decisions.

  lemma EndsBeforeSound(k: Knowledge, val: Valuation, a: Operation, b: Operation)
    requires Sound(k, val) && a.location == Memory && b.location == Memory
    requires EndsBefore(k, a, b)
    ensures Disjoint(val, a, b)
  {
    var l := k.valueIfKnownConstant(a.length.value).value;
    var s1 := k.valueIfKnownConstant(a.start.value).value;
    var s2 := k.valueIfKnownConstant(b.start.value).value;
    AddNoWrap(s1, l);
    assert val(a.start.value) == s1 && val(a.length.value) == l && val(b.start.value) == s2;
    assert s1 + l <= s2;
  }

  /**
   * Soundness of `KnownUnrelated`: on one location, no byte or slot may be touched
   * by both operations.
   */
  lemma KnownUnrelatedSound(k: Knowledge, val: Valuation, op1: Operation, op2: Operation)
    requires Sound(k, val)
    requires op1.location == op2.location
    requires KnownUnrelated(k, op1, op2)
    ensures Disjoint(val, op1, op2)
  {
    if op1.location == Memory {
      if KnownZeroLength(k, op1) || KnownZeroLength(k, op2) {
      } else if EndsBefore(k, op1, op2) {
        EndsBeforeSound(k, val, op1, op2);
      } else if EndsBefore(k, op2, op1) {
        EndsBeforeSound(k, val, op2, op1);
      } else {
        assert WordsApart(k, op1, op2);
        var x, y := val(op1.start.value), val(op2.start.value);
        ApartBy32(x, y);
        assert val(op1.length.value) <= 32 && val(op2.length.value) <= 32;
      }
    }
  }

  /** With a symmetric oracle, `KnownUnrelated` does not depend on the order of its arguments. */
  lemma KnownUnrelatedSymmetric(k: Knowledge, op1: Operation, op2: Operation)
    requires Symmetric(k)
    ensures KnownUnrelated(k, op1, op2) == KnownUnrelated(k, op2, op1)
  {
    if op1.location == op2.location && op1.location == Memory
       && op1.start.Some? && op1.length.Some? && op2.start.Some? && op2.length.Some? {
      assert k.knownToBeDifferentByAtLeast32(op1.start.value, op2.start.value)
          == k.knownToBeDifferentByAtLeast32(op2.start.value, op1.start.value);
    }
  }

  /** On storage, two accesses are unrelated exactly when both slots are known and known different. */
  lemma KnownUnrelatedStorage(k: Knowledge, op1: Operation, op2: Operation)
    requires op1.location == Storage && op2.location == Storage
    ensures KnownUnrelated(k, op1, op2) <==>
      op1.start.Some? && op2.start.Some? && k.knownToBeDifferent(op1.start.value, op2.start.value)
  {
  }

  /** A memory access of known zero length is unrelated to everything. */
  lemma ZeroLengthUnrelated(k: Knowledge, op1: Operation, op2: Operation)
    requires op1.location == Memory
    requires KnownZeroLength(k, op1) || KnownZeroLength(k, op2)
    ensures KnownUnrelated(k, op1, op2) && KnownUnrelated(k, op2, op1)
  {
  }

  /**
   * Soundness of `KnownCovered`: every byte or slot the covered write may touch is
   * certainly written by the covering one.
   */
  lemma KnownCoveredSound(k: Knowledge, val: Valuation, covered: Operation, covering: Operation)
    requires Sound(k, val)
    requires KnownCovered(k, covered, covering)
    ensures covered.location == covering.location
    ensures Covers(val, covering, covered)
  {
    if covered.start.Some? && covered.start == covering.start
       && covered.length.Some? && covered.length == covering.length {
    } else if covered.location == Memory && !KnownZeroLength(k, covered) {
      var coveredLength := k.valueIfKnownConstant(covered.length.value);
      var coveringLength := k.valueIfKnownConstant(covering.length.value);
      var coveredStart := k.valueIfKnownConstant(covered.start.value);
      var coveringStart := k.valueIfKnownConstant(covering.start.value);
      if k.knownToBeEqual(covered.start.value, covering.start.value)
         && coveredLength.Some? && coveringLength.Some? && coveredLength.value <= coveringLength.value {
        assert val(covered.start.value) == val(covering.start.value);
        assert val(covered.length.value) <= val(covering.length.value);
      } else {
        AddNoWrap(coveringStart.value, coveringLength.value);
        AddNoWrap(coveredStart.value, coveredLength.value);
        assert val(covered.start.value) == coveredStart.value;
        assert val(covering.start.value) == coveringStart.value;
        assert val(covered.length.value) == coveredLength.value;
        assert val(covering.length.value) == coveringLength.value;
      }
    }
  }

  /** Two writes on one location naming the same start and the same length cover each other. */
  lemma SameExtentCovered(k: Knowledge, covered: Operation, covering: Operation)
    requires covered.location == covering.location
    requires covered.start.Some? && covered.start == covering.start
    requires covered.length.Some? && covered.length == covering.length
    ensures KnownCovered(k, covered, covering) && KnownCovered(k, covering, covered)
  {
  }

  /**
   * When either write has an unknown start or an unknown length, nothing is known
   * covered, except a memory write of known zero length.
   */
  lemma UnknownExtentCoversNothing(k: Knowledge, covered: Operation, covering: Operation)
    requires covering.start.None? || covering.length.None? || covered.start.None? || covered.length.None?
    ensures KnownCovered(k, covered, covering) ==>
      covered.location == Memory && KnownZeroLength(k, covered)
  {
  }

  /** On storage, a write covers another exactly when both name the same start and the same length. */
  lemma KnownCoveredStorage(k: Knowledge, covered: Operation, covering: Operation)
    requires covered.location == Storage
    ensures KnownCovered(k, covered, covering) <==>
      covering.location == Storage
      && covered.start.Some? && covered.start == covering.start
      && covered.length.Some? && covered.length == covering.length
  {
  }
}
