/** The existence filter wrapped by `internal/filter/bloom.go`, reduced to what the
    lookup cascade relies on: `Test` never answers "absent" for a code that was added.
    The filter is kept abstract: one hash function maps a code to a bit position, and the
    set of positions that are switched on stands for the bit array. */
module Filter {

  class BloomFilter {
    /** Where a code lands in the bit array. */
    const hash: string -> nat
    /** Positions switched on. */
    var bits: set<nat>
    /** Every code added so far (the filter itself does not remember them). */
    ghost var added: set<string>

    /** Every added code has its position switched on. */
    ghost predicate Valid()
      reads this
    {
      forall code :: code in added ==> hash(code) in bits
    }

    constructor (hash: string -> nat)
      ensures Valid() && this.hash == hash && added == {}
    {
      this.hash := hash;
      bits := {};
      added := {};
    }

    /** Test: `false` means the code was certainly never added; `true` may be a false positive. */
    predicate Test(shortCode: string): (possiblyPresent: bool)
      reads this
      requires Valid()
      ensures shortCode in added ==> possiblyPresent
    {
      hash(shortCode) in bits
    }

    /** Add: marks one code as present. */
    method Add(shortCode: string)
      requires Valid()
      modifies this
      ensures Valid()
      ensures added == old(added) + {shortCode}
      ensures bits >= old(bits)
    {
      bits := bits + {hash(shortCode)};
      added := added + {shortCode};
    }

    /** AddBatch: marks every code of the batch as present, one after the other. */
    method AddBatch(shortCodes: seq<string>)
      requires Valid()
      modifies this
      ensures Valid()
      ensures added == old(added) + set i | 0 <= i < |shortCodes| :: shortCodes[i]
      ensures bits >= old(bits)
    {
      var k := 0;
      while k < |shortCodes|
        invariant 0 <= k <= |shortCodes|
        invariant Valid() && bits >= old(bits)
        invariant added == old(added) + set i | 0 <= i < k :: shortCodes[i]
      {
        bits := bits + {hash(shortCodes[k])};
        added := added + {shortCodes[k]};
        k := k + 1;
      }
    }
  }
}
