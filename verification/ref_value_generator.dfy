/**
 * `Algorithm/RefValueGenerator.py`: the base reference-value generator, which holds a
 * reference value of nine zeros and hands it out.
 */
module RefValueGenerator {
  import opened DataInfo
  import opened PyList

  /** The number of entries of a fresh reference value. */
  const REF_SIZE: nat := 9

  /** `RefValueGenerator`. */
  class Generator {
    /** `_refValue`. */
    var refValue: seq<int>

    /** A fresh generator's reference value is nine zeros. */
    constructor()
      ensures refValue == Filled(0, REF_SIZE)
    {
      refValue := Filled(0, REF_SIZE);
    }

    /** The base `calRefValue` does nothing: the reference value stays as it was. */
    method CalRefValue(input: Frame)
      modifies this
      ensures refValue == old(refValue)
    {
    }

    /** `getRefValue`: the stored value, with no effect on the generator. */
    method GetRefValue() returns (r: seq<int>)
      ensures r == refValue
    {
      r := refValue;
    }
  }
}
