/** Shared vocabulary: optional values and the idealised hash.

    A hash is a free term: SumHash (pkg/types/types.go:48-59) length-prefixes every part, so
    two calls agree only on equal part lists, and the model makes that injectivity structural.
    `Pair` is SumHash of two 32-byte parts, `Sum` is SumHash of any other part list.
    Addresses, NFT ids and roots are all 32-byte values in the source and are all `Hash` here. */
module Hashing {

  datatype Option<+T> = None | Some(value: T)

  datatype Part = OfHash(h: Hash) | OfWord(w: int) | OfFlag(b: bool) | OfText(s: string)

  datatype Hash = Raw(id: nat) | Pair(left: Hash, right: Hash) | Sum(parts: seq<Part>)

  const ZERO: Hash := Raw(0)
}
