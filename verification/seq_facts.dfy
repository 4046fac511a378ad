/**
 * Facts about sequence concatenation and slicing, stated generically so
 * that proofs about rows and links can use them without unfolding the
 * row or link contents.
 */
module SeqFacts {

  /** Dropping a prefix from a concatenation leaves the rest. */
  lemma DropPrefix<T>(p: seq<T>, r: seq<T>)
    ensures p <= p + r && (p + r)[|p|..] == r
  {
  }

  /** A six-part concatenation regrouped to the right after its first part. */
  lemma Concat6Assoc<T>(a: seq<T>, b: seq<T>, c: seq<T>, d: seq<T>, e: seq<T>, f: seq<T>)
    ensures a + b + c + d + e + f == a + (b + (c + (d + e + f)))
  {
  }

  /** A non-empty sequence is its prefix followed by its last element. */
  lemma SplitLast<T>(s: seq<T>)
    requires s != []
    ensures s == s[..|s| - 1] + [s[|s| - 1]]
  {
  }

  /** The empty sequence is a left unit of concatenation. */
  lemma EmptyConcat<T>(s: seq<T>)
    ensures [] + s == s
  {
  }

  /** Concatenation is associative. */
  lemma ConcatAssoc<T>(a: seq<T>, b: seq<T>, c: seq<T>)
    ensures (a + b) + c == a + (b + c)
  {
  }
}
