/**
 Bloom filters. The library's hash family, sizing rule and serialisation are
 parameters; only the set-of-bits behaviour is fixed here.
 */
module Bloom {
  import opened Common
  import opened Bytes

  type pos = n: nat | 0 < n witness 1

  datatype Filter = Filter(m: pos, k: pos, bits: set<nat>)

  datatype Library = Library(
    location: (Hash, nat) -> nat,
    sizing: nat -> (pos, pos),
    marshal: Filter -> seq<byte>,
    unmarshal: seq<byte> -> Option<Filter>)

  function Positions(lib: Library, m: pos, k: pos, h: Hash): set<nat> {
    set i | 0 <= i < k :: lib.location(h, i) % m
  }

  function Add(lib: Library, bf: Filter, h: Hash): Filter {
    bf.(bits := bf.bits + Positions(lib, bf.m, bf.k, h))
  }

  predicate Test(lib: Library, bf: Filter, h: Hash) {
    Positions(lib, bf.m, bf.k, h) <= bf.bits
  }

  // No false negatives; a missing filter covers anything.
  ghost predicate Covers(lib: Library, bf: Option<Filter>, hashes: seq<Hash>) {
    bf.Some? ==> forall h | h in hashes :: Test(lib, bf.value, h)
  }

  // The filter can be stored in a cache file and read back.
  predicate Storable(lib: Library, bf: Option<Filter>) {
    bf.Some? ==>
      && 0 < |lib.marshal(bf.value)| < 0x1_0000_0000
      && lib.unmarshal(lib.marshal(bf.value)) == Some(bf.value)
  }
}
