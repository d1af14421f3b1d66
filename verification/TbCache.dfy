/** The translation-block cache: a chained hash table keyed on guest PC (core/src/tcg.c). */
module TbCache {
  import opened Runs

  const HASH_SIZE := 1024
  const U32 := 0x1_0000_0000

  /** A bucket: blocks linked through hash_next, newest first. */
  datatype Chain<T> = Nil | Tb(guestPc: nat, guestSize: nat, nInsns: nat, insns: T, hashNext: Chain<T>)

  /** What one insertion recorded. */
  datatype Block<T> = Block(pc: nat, size: nat, n: nat, insns: T)

  /** Knuth's multiplicative hash, shifted down to the index width. */
  function TbHash(pc: nat): (h: nat)
    ensures h < HASH_SIZE
  {
    pc * 2654435761 % U32 / 0x40_0000
  }

  /** The block inserted last for pc, if any. */
  function Latest<T>(log: seq<Block<T>>, pc: nat): Option<Block<T>> {
    if log == [] then None
    else if log[|log| - 1].pc == pc then Some(log[|log| - 1])
    else Latest(log[..|log| - 1], pc)
  }

  function TotalInsns<T>(log: seq<Block<T>>): nat {
    if log == [] then 0 else TotalInsns(log[..|log| - 1]) + log[|log| - 1].n
  }

  /** Bucket b after the insertions of log. */
  ghost function BucketOf<T>(log: seq<Block<T>>, b: nat): Chain<T> {
    if log == [] then Nil
    else
      var last, rest := log[|log| - 1], BucketOf(log[..|log| - 1], b);
      if TbHash(last.pc) == b then Tb(last.pc, last.size, last.n, last.insns, rest) else rest
  }

  function FindInChain<T>(c: Chain<T>, pc: nat): Option<Block<T>> {
    match c
    case Nil => None
    case Tb(p, s, n, insns, next) => if p == pc then Some(Block(p, s, n, insns)) else FindInChain(next, pc)
  }

  /** Searching only pc's bucket misses nothing and finds the newest block. */
  lemma {:induction false} BucketFindsLatest<T>(log: seq<Block<T>>, pc: nat)
    ensures FindInChain(BucketOf(log, TbHash(pc)), pc) == Latest(log, pc)
  {
    hide TbHash;
    if log != [] {
      BucketFindsLatest(log[..|log| - 1], pc);
    }
  }

  class Cache<T> {
    const buckets: array<Chain<T>>
    var nTbs: nat
    var nInsnsTotal: nat
    ghost var log: seq<Block<T>>

    /** The table holds exactly the insertions since the last flush. */
    ghost predicate Valid()
      reads this, buckets
    {
      && buckets.Length == HASH_SIZE
      && (forall b :: 0 <= b < HASH_SIZE ==> buckets[b] == BucketOf(log, b))
      && nTbs == |log| % U32
      && nInsnsTotal == TotalInsns(log) % U32
    }

    constructor ()
      ensures Valid() && log == [] && fresh(buckets)
    {
      buckets := new Chain<T>[HASH_SIZE](i => Nil);
      nTbs, nInsnsTotal, log := 0, 0, [];
    }

    method Flush()
      requires Valid()
      modifies this, buckets
      ensures Valid() && log == []
    {
      for i := 0 to HASH_SIZE
        invariant forall b :: 0 <= b < i ==> buckets[b] == Nil
      {
        buckets[i] := Nil;
      }
      nTbs, nInsnsTotal, log := 0, 0, [];
    }

    method Lookup(pc: nat) returns (r: Option<Block<T>>)
      requires Valid()
      ensures r == Latest(log, pc)
    {
      hide TbHash;
      BucketFindsLatest(log, pc);
      var tb := buckets[TbHash(pc)];
      while tb.Tb?
        invariant FindInChain(tb, pc) == Latest(log, pc)
        decreases tb
      {
        if tb.guestPc == pc { return Some(Block(tb.guestPc, tb.guestSize, tb.nInsns, tb.insns)); }
        tb := tb.hashNext;
      }
      r := None;
    }

    method Insert(pc: nat, guestSize: nat, nInsns: nat, insns: T)
      requires Valid()
      modifies this, buckets
      ensures Valid() && log == old(log) + [Block(pc, guestSize, nInsns, insns)]
    {
      hide TbHash;
      var bucket := TbHash(pc);
      ghost var was := log;
      buckets[bucket] := Tb(pc, guestSize, nInsns, insns, buckets[bucket]);
      nTbs := (nTbs + 1) % U32;
      nInsnsTotal := (nInsnsTotal + nInsns) % U32;
      log := log + [Block(pc, guestSize, nInsns, insns)];
      assert log[..|log| - 1] == was;
    }
  }
}
