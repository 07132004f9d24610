/**
 * The values a caller hands to a Bloom filter, and the exceptions the filter raises.
 * Python decides support by `isinstance`; here every argument carries an explicit tag.
 */
module Items {
  import opened Wrappers

  /** The range of a signed 32-bit MurmurHash3 code. */
  type Int32 = x: int | -0x8000_0000 <= x < 0x8000_0000

  /**
   * An item passed to `add`, `search` or `contains`. `bool` is a subclass of `int` in
   * Python, so a boolean passes the item check; a float is carried by its IEEE-754 bits.
   * Anything else (a list, a dict, None, a complex number) is `Unsupported`.
   */
  datatype Item =
    | Str(text: string)
    | Int(value: int)
    | Bool(truth: bool)
    | Float(ieee: bv64)
    | Unsupported(typeName: string)

  /** The argument of `add_vector` and `contains_vector`: a Python list or anything else. */
  datatype Vector = List(elems: seq<Item>) | NotList(typeName: string)

  /** The two exception classes the filter raises, with their messages. */
  datatype Error = ValueError(message: string) | TypeError(message: string)

  const SizeMessage := "size of BitArray must be greater than 0."
  const ProbabilityMessage := "false_positive_prob must be between 0 and 1."
  const CapacityMessage := "BloomFilter capacity must be greater than zero. "
  const ItemMessage := "Item must be str, int or float."
  const VectorMessage := "Vector must be of type list."

  /** The item domain: str, int (bool included) and float. */
  predicate IsSupported(item: Item) {
    item.Str? || item.Int? || item.Bool? || item.Float?
  }

  /** `validate_item`: no error exactly for the supported kinds. */
  function ValidateItem(item: Item): (r: Option<Error>)
    ensures r == None <==> IsSupported(item)
    ensures r != None ==> r == Some(TypeError(ItemMessage))
  {
    match item
    case Unsupported(_) => Some(TypeError(ItemMessage))
    case _ => None
  }

  /** `validate_vector`: no error exactly for a list. */
  function ValidateVector(v: Vector): (r: Option<Error>)
    ensures r == None <==> v.List?
    ensures r != None ==> r == Some(TypeError(VectorMessage))
  {
    match v
    case NotList(_) => Some(TypeError(VectorMessage))
    case List(_) => None
  }
}
