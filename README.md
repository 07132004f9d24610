# Bloom filter model

A Dafny model of the Bloom filter in `bloom/bloom_filter.py`: a `BitArray` of boolean
cells that are only ever set, and a `BloomFilter` that owns one such array of `bits`
cells and maps each item to `k` cells through a seeded hash primitive
(`hash(item, seed)` for seeds `0..k-1`, each code reduced by `code % bits`).

- `items.dfy` (module `Items`): the item domain as a tagged value (`Str`, `Int`, `Bool`,
  `Float`, `Unsupported`), the list/non-list argument of the vector operations, the
  `ValueError`/`TypeError` exceptions with their messages, and the two validators.
- `bit_array.dfy` (module `BitArrays`): class `BitArray` over an `array<bool>`, with
  `fill`, `__getitem__` (numpy's negative indices included), `__len__` and `__iter__`, the
  checked constructor `NewBitArray`, and the set-bit count with its lemmas.
- `bloom_spec.dfy` (module `BloomSpec`): the insertion and query protocol on a plain bit
  sequence (`Added`, `Occupied`, the `add`/`add_vector` outcomes as folds) and the
  guarantees: no false negatives, idempotent and order-independent `add`, the vector
  operations as folds of the scalar ones, no rollback.
- `bloom_filter.dfy` (module `BloomFilters`): class `BloomFilter`, whose `Add` and
  `AddVector` are loops proved to produce exactly the reference state, and whose
  `Search`, `Contains` and `ContainsVector` are functions of the current bits. Being
  functions, the queries cannot change the bit array. `NewBloomFilter` checks the
  arguments, and two scenarios replay the positive assertions of `test.py` (lines 14 and 25).

The hash primitive is a parameter of the filter: MurmurHash3 (32-bit, signed) and the
`str(item).encode('utf-8')` step before it are foreign code, so the model assumes only a
deterministic function `(Item, nat) -> Int32`. Python's `%` rounds the quotient down, so
`code % bits` lies in `[0, bits)` for negative codes too. Dafny's `%` agrees when the
divisor is positive.

Three behaviours of the code that the model keeps:
- `add_vector`/`contains_vector` accept a Python `list` only, not any sequence.
- `BitArray` indexing follows numpy: indices in `[-size, size)` are accepted, and negative
  ones count from the end.
- A Python `bool` passes the item check, because `bool` is a subclass of `int`.

## Model

| member | source | states |
|---|---|---|
| `Items.ValidateItem` | bloom/bloom_filter.py:249-261 | no error exactly for str, int (bool included) and float; otherwise `TypeError("Item must be str, int or float.")` |
| `Items.ValidateVector` | bloom/bloom_filter.py:264-276 | no error exactly for a list; otherwise `TypeError("Vector must be of type list.")` |
| `BitArrays.CountSet` | bloom/bloom_filter.py:82-93 | the count of true cells is at most the length, and is zero exactly when no cell is set |
| `BitArrays.CountSetFill` | bloom/bloom_filter.py:70-93 | setting a cell raises the count by one if it was clear, by nothing if it was set |
| `BitArrays.CountSetMonotone` | bloom/bloom_filter.py:82-93 | a state with more cells set has a count at least as large |
| `BitArrays.NumpyIndex` | bloom/bloom_filter.py:80 | an index in `[-size, size)` names a cell in range, congruent to it modulo `size` |
| `BitArrays.BitArray.constructor` | bloom/bloom_filter.py:61-67 | a positive size gives `size` cells, all false |
| `BitArrays.NewBitArray` | bloom/bloom_filter.py:61-67 | a size `<= 0` raises `ValueError("size of BitArray must be greater than 0.")`; otherwise a fresh array of `size` false cells with count 0 |
| `BitArrays.BitArray.Bits` | bloom/bloom_filter.py:112-122 | iteration yields the cells in index order, one per cell |
| `BitArrays.BitArray.Get` | bloom/bloom_filter.py:95-110 | reads the cell at `index`, counted from the end when negative |
| `BitArrays.BitArray.Fill` | bloom/bloom_filter.py:70-80 | the cell becomes true, every other cell is unchanged, and the count rises by one exactly if the cell was clear |
| `BitArrays.BitArray.Len` | bloom/bloom_filter.py:82-93 | the number of set cells: at most `size`, zero exactly when none is set |
| `BloomSpec.HashCodes` | bloom/bloom_filter.py:12-37 | the generator yields exactly `k` codes, the one at position `i` hashed with seed `i` |
| `BloomSpec.Slot` | bloom/bloom_filter.py:293 | `code % bits` is in `[0, bits)` for every code, negative ones included, and is the floored remainder |
| `BloomSpec.Positions` | bloom/bloom_filter.py:292-293 | an item maps to `k` cell indices, each inside the array |
| `BloomSpec.AddStep` | bloom/bloom_filter.py:278-293 | `add` reports exactly the validation error (under a total hash); a rejected item leaves the bits unchanged; no bit is ever cleared |
| `BloomSpec.AddSteps` | bloom/bloom_filter.py:363-366 | the fold of `add` over a list clears no bit and, under a total hash, can only raise the item `TypeError` |
| `BloomSpec.AddVectorStep` | bloom/bloom_filter.py:351-366 | a non-list raises `TypeError("Vector must be of type list.")` before any element is added; no bit is ever cleared |
| `BloomSpec.Run` | bloom/bloom_filter.py:278-366 | any run of `add`/`add_vector` calls, failing ones included, only sets bits |
| `BloomSpec.AddedOccupies` | bloom/bloom_filter.py:292-317 | after `add(x)` every cell `search(x)` reads is set |
| `BloomSpec.OccupiedMonotone` | bloom/bloom_filter.py:314-317 | setting more bits keeps an item reported present |
| `BloomSpec.NoFalseNegatives` | bloom/bloom_filter.py:278-336 | after `add(x)`, `x` is reported present after any further run of `add`/`add_vector` calls |
| `BloomSpec.AddIdempotent` | bloom/bloom_filter.py:289-293 | `add(x); add(x)` gives the same bits and outcome as one `add(x)` |
| `BloomSpec.AddCommutes` | bloom/bloom_filter.py:292-293 | two successful adds give the same bits in either order |
| `BloomSpec.AddStepCommutes` | bloom/bloom_filter.py:278-293 | two `add` calls, rejected ones included, leave the same bits in either order |
| `BloomSpec.AddedExactly` | bloom/bloom_filter.py:292-293 | after `add(x)` a cell is set exactly if it was set before or is one of `x`'s cells |
| `BloomSpec.AddedCount` | bloom/bloom_filter.py:82-93 | `add` never lowers the set-bit count |
| `BloomSpec.AddStepsAppend` | bloom/bloom_filter.py:365-366 | adding `a + b` is adding `a`, then `b` if nothing failed |
| `BloomSpec.AddStepsSingle` | bloom/bloom_filter.py:365-366 | `add_vector([x])` is `add(x)` |
| `BloomSpec.AddStepsNoRollback` | bloom/bloom_filter.py:363-366 | at the first unsupported element `add_vector` raises `TypeError` and keeps exactly the bits the earlier elements set |
| `BloomSpec.AddStepsSupported` | bloom/bloom_filter.py:363-366 | under a total hash, `add_vector` over a list raises nothing exactly when every element is supported |
| `BloomSpec.AddStepsPresent` | bloom/bloom_filter.py:363-388 | after an error-free `add_vector`, every element is reported present |
| `BloomSpec.VectorLaw` | test.py:20-25 | an `add_vector(v)` that raises nothing means `v` is a list all of whose elements `contains_vector` finds |
| `BloomFilters.BloomFilter.constructor` | bloom/bloom_filter.py:179-184 | stores the arguments and derived sizes and allocates `bits` clear cells |
| `BloomFilters.NewBloomFilter` | bloom/bloom_filter.py:171-184 | a probability outside `(0, 1)` raises its `ValueError` first; then a capacity `<= 0` raises its `ValueError`; only then is a fresh, all-clear array of `bits` cells allocated, with the arguments (the probability defaulting to 0.05) stored |
| `BloomFilters.BloomFilter.Bits` | bloom/bloom_filter.py:390-401 | iterating the filter yields the raw bits of its storage, `bits` of them |
| `BloomFilters.BloomFilter.Add` | bloom/bloom_filter.py:278-293 | the new bits are exactly the reference `add` outcome and the error is the validation error (under a total hash); the set-bit count rises by at most `k` and never falls |
| `BloomFilters.BloomFilter.Search` | bloom/bloom_filter.py:295-317 | under a total hash, a `TypeError` exactly for unsupported items; otherwise true iff every cell of the item is set |
| `BloomFilters.BloomFilter.AllSetFrom` | bloom/bloom_filter.py:314-317 | the short-circuiting `all(...)` over seeds `seed..k-1` is true iff all those cells are set |
| `BloomFilters.BloomFilter.Contains` | bloom/bloom_filter.py:319-336 | the answer of `search`; true exactly when the item is supported and all its cells are set |
| `BloomFilters.BloomFilter.AddVector` | bloom/bloom_filter.py:351-366 | the new bits and error are exactly the reference fold of `add` over the list, stopping at the first error |
| `BloomFilters.BloomFilter.ContainsVector` | bloom/bloom_filter.py:369-388 | a non-list raises; otherwise true iff every element is present, and a `TypeError` iff the first element not present is unsupported (later elements are never validated) |
| `BloomFilters.BloomFilter.ContainsFrom` | bloom/bloom_filter.py:388 | the scan from element `i` on: true iff all elements are present, an error iff some element at or after `i` is where it raises |
| `BloomFilters.MembershipScenario` | test.py:9-14 | with the sizes for capacity 1000 and probability 0.001, an added string is found, whatever the hash |
| `BloomFilters.VectorScenario` | test.py:20-25 | with the same sizes, `contains_vector` finds a vector that `add_vector` added |

## Left out

- MurmurHash3 and the `str(item).encode('utf-8')` normalisation (bloom/bloom_filter.py:6, 32, 35) are foreign code. The hash is a parameter of the filter. The model therefore does not capture that `1` and `"1"` have the same text and so the same cells.
- `get_optimal_hash_functions`, `get_optimal_bits`, `get_estimated_items`, `len` and `__len__` of the filter (bloom/bloom_filter.py:186-246, 338-349, 403-414) use floating-point `log`, `ceil` and `floor`. The derived sizes are inputs to `NewBloomFilter`, which requires them to be positive when the arguments are valid, as the formulas guarantee.
- BloomFilters.NewBloomFilter: the probability is a real number, so a NaN or infinite probability, which Python rejects with the same `ValueError`, is not represented.
- BitArrays.BitArray.Fill and BitArrays.BitArray.Get: an index outside `[-size, size)`, for which numpy raises `IndexError` (bloom/bloom_filter.py:80, 110), is excluded by a precondition of both. The filter is proved to pass only indices in `[0, bits)`.
- BloomSpec.AddStep: the hash is total, so the exceptions of the `str(item).encode('utf-8')` step (bloom/bloom_filter.py:32) are not modelled: an int of more than 4300 digits, for which Python raises ValueError before setting any bit, is added here without error. A Python str holding a lone surrogate (UnicodeEncodeError in Python) cannot be represented, because a Dafny char excludes surrogates, so the model says nothing about such strings.
- BloomSpec.AddSteps: for the same reason, the only error the fold reports is the item `TypeError`; an element whose normalisation raises is not represented.
- BloomSpec.AddStepsSupported: for the same reason, "raises nothing exactly when every element is supported" holds only under the total hash.
- BloomFilters.BloomFilter.Add: for the same reason, its error is exactly the validation error; the normalisation's own exceptions are not modelled.
- BloomFilters.BloomFilter.Search: for the same reason, it raises only the item `TypeError`; the normalisation's own exceptions inside `all(...)` (bloom/bloom_filter.py:314-316) are not modelled.
- BloomFilters.NewBloomFilter: `capacity` is an integer; Python accepts any value that compares with 0 (a float such as 0.5 passes the check at bloom/bloom_filter.py:176).
- `__contains__` (bloom/bloom_filter.py:416-430), which `in` uses in test.py:14, is `contains`: it is modelled by `BloomFilters.BloomFilter.Contains`.
- `__str__` of both classes (bloom/bloom_filter.py:124-135, 432-443) only formats text.
- The probabilistic checks in test.py:15 and test.py:26, and the false-positive rate, depend on concrete hash values and on probability.
- Items of Python types other than the listed ones (subclasses of str, numpy scalars) are represented only by their supported or unsupported tag.
