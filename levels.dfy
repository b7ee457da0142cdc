/** The severity mask of a logger (`Logger.Level`): a flag set over a 32-bit
    raw value. Each of the six named ranks owns one bit; `All` sets every bit.
    Union, intersection and containment are the bitwise operations that a
    flag set over a fixed-width integer performs. */
module Levels {

  /** The raw value is a signed 32-bit integer in the source; only its bits
      matter to the flag-set operations, so it is kept as a `bv32`. */
  datatype Level = Level(raw: bv32)

  /** The six named ranks. */
  datatype Rank = Trace | Debug | Info | Warning | Error | Fatal

  const AllRanks: set<Rank> := {Trace, Debug, Info, Warning, Error, Fatal}

  /** The bit each rank occupies. */
  function Index(r: Rank): nat
  {
    match r
    case Trace => 0
    case Debug => 1
    case Info => 2
    case Warning => 3
    case Error => 4
    case Fatal => 5
  }

  /** The named rank constants `trace` ... `fatal`. */
  function Of(r: Rank): Level
  {
    match r
    case Trace => Level(1 << 0)
    case Debug => Level(1 << 1)
    case Info => Level(1 << 2)
    case Warning => Level(1 << 3)
    case Error => Level(1 << 4)
    case Fatal => Level(1 << 5)
  }

  /** The `all` constant: the complement of zero. */
  const All: Level := Level(!0)

  function Union(a: Level, b: Level): Level
  {
    Level(a.raw | b.raw)
  }

  function Intersection(a: Level, b: Level): Level
  {
    Level(a.raw & b.raw)
  }

  /** A flag set contains a member when every bit of the member is set in it. */
  predicate Contains(a: Level, member: Level)
  {
    a.raw & member.raw == member.raw
  }

  predicate IsEmpty(a: Level)
  {
    a.raw == 0
  }

  /** Two masks match when they share a rank: the filtering test an appender
      may apply to an event's level. */
  predicate Matches(a: Level, b: Level)
  {
    !IsEmpty(Intersection(a, b))
  }

  // ---------------------------------------------------------------------------
  // Reference views: the named ranks a mask contains, and its integer value.

  /** The named ranks a mask contains. */
  function Ranks(a: Level): (s: set<Rank>)
    ensures s <= AllRanks
  {
    set r | r in AllRanks && Contains(a, Of(r))
  }

  /** The union of the six named ranks: the part of a mask that `Ranks` sees. */
  const Named: Level := Level(0x3F)

  /** The value the raw bits denote as a signed 32-bit integer. */
  function Int32Value(x: bv32): (v: int)
    ensures -0x8000_0000 <= v < 0x8000_0000
  {
    if x as int < 0x8000_0000 then x as int else x as int - 0x1_0000_0000
  }

  function Pow2(n: nat): nat
  {
    if n == 0 then 1 else 2 * Pow2(n - 1)
  }

  /** A value with exactly one bit set. */
  predicate IsSingleBit(x: bv32)
  {
    x != 0 && x & (x - 1) == 0
  }

  // ---------------------------------------------------------------------------
  // The rank constants.

  /** Each named rank occupies exactly one bit, and it is bit `Index(r)`:
      its raw value read as an integer is 2 to the power of its index. */
  lemma RankIsSingleBit(r: Rank)
    ensures IsSingleBit(Of(r).raw)
    ensures Int32Value(Of(r).raw) == Pow2(Index(r))
  {
    assert Pow2(5) == 32 by {
      assert Pow2(1) == 2 && Pow2(2) == 4 && Pow2(3) == 8 && Pow2(4) == 16;
    }
  }

  /** Two named ranks share a bit exactly when they are the same rank. */
  lemma RanksDisjoint(r: Rank, q: Rank)
    ensures Matches(Of(r), Of(q)) <==> r == q
    ensures r != q ==> IsEmpty(Intersection(Of(r), Of(q)))
  {
  }

  /** A rank constant contains exactly its own rank, and the six ranks
      together make up `Named`. */
  lemma RanksOfRank(r: Rank)
    ensures Ranks(Of(r)) == {r}
    ensures Contains(Named, Of(r))
  {
  }

  lemma NamedIsUnionOfRanks()
    ensures Named == Union(Of(Trace), Union(Of(Debug), Union(Of(Info),
                       Union(Of(Warning), Union(Of(Error), Of(Fatal))))))
  {
  }

  // ---------------------------------------------------------------------------
  // The `all` constant.

  /** `all` read as a signed 32-bit integer is -1: every bit is set. */
  lemma AllIsMinusOne()
    ensures Int32Value(All.raw) == -1
  {
  }

  /** `all` contains every mask, hence every named rank; intersecting with it
      leaves a mask unchanged. */
  lemma AllContains(m: Level)
    ensures Contains(All, m)
  {
  }

  lemma AllIntersection(m: Level)
    ensures Intersection(All, m) == m
  {
  }

  lemma AllRanksInAll()
    ensures Ranks(All) == AllRanks
    ensures forall r :: Matches(All, Of(r))
  {
  }

  // ---------------------------------------------------------------------------
  // On named ranks, the flag-set operations are the set operations.

  lemma RankOfUnion(a: Level, b: Level, r: Rank)
    ensures Contains(Union(a, b), Of(r)) <==> Contains(a, Of(r)) || Contains(b, Of(r))
  {
  }

  lemma RankOfIntersection(a: Level, b: Level, r: Rank)
    ensures Contains(Intersection(a, b), Of(r)) <==> Contains(a, Of(r)) && Contains(b, Of(r))
  {
  }

  lemma UnionRanks(a: Level, b: Level)
    ensures Ranks(Union(a, b)) == Ranks(a) + Ranks(b)
  {
    var u := Union(a, b);
    forall r | r in AllRanks
      ensures r in Ranks(u) <==> r in Ranks(a) + Ranks(b)
    {
      RankOfUnion(a, b, r);
      assert r in Ranks(u) <==> Contains(u, Of(r));
    }
  }

  lemma IntersectionRanks(a: Level, b: Level)
    ensures Ranks(Intersection(a, b)) == Ranks(a) * Ranks(b)
  {
    forall r | r in AllRanks
      ensures r in Ranks(Intersection(a, b)) <==> r in Ranks(a) * Ranks(b)
    {
      RankOfIntersection(a, b, r);
    }
  }

  /** A mask matches a rank exactly when it contains that rank. */
  lemma MatchesRank(a: Level, r: Rank)
    ensures Matches(a, Of(r)) <==> r in Ranks(a)
  {
  }

  /** The ranks a mask contains determine its named part: two masks that
      contain the same ranks agree on every named bit. */
  lemma RanksDetermineNamedPart(a: Level, b: Level)
    ensures Ranks(a) == Ranks(b) <==> Intersection(a, Named) == Intersection(b, Named)
  {
    if Ranks(a) == Ranks(b) {
      SameRanksSameNamedPart(a, b);
    }
    if Intersection(a, Named) == Intersection(b, Named) {
      SameNamedPartSameRanks(a, b);
    }
  }

  lemma SameRanksSameNamedPart(a: Level, b: Level)
    requires Ranks(a) == Ranks(b)
    ensures Intersection(a, Named) == Intersection(b, Named)
  {
    assert Trace in Ranks(a) <==> Trace in Ranks(b);
    assert Debug in Ranks(a) <==> Debug in Ranks(b);
    assert Info in Ranks(a) <==> Info in Ranks(b);
    assert Warning in Ranks(a) <==> Warning in Ranks(b);
    assert Error in Ranks(a) <==> Error in Ranks(b);
    assert Fatal in Ranks(a) <==> Fatal in Ranks(b);
    SixBitsAgree(a.raw, b.raw);
  }

  lemma SameNamedPartSameRanks(a: Level, b: Level)
    requires Intersection(a, Named) == Intersection(b, Named)
    ensures Ranks(a) == Ranks(b)
  {
    forall r | r in AllRanks
      ensures r in Ranks(a) <==> r in Ranks(b)
    {
      SameNamedPartSameRank(a, b, r);
    }
  }

  lemma SixBitsAgree(x: bv32, y: bv32)
    requires x & 1 == 1 <==> y & 1 == 1
    requires x & 2 == 2 <==> y & 2 == 2
    requires x & 4 == 4 <==> y & 4 == 4
    requires x & 8 == 8 <==> y & 8 == 8
    requires x & 16 == 16 <==> y & 16 == 16
    requires x & 32 == 32 <==> y & 32 == 32
    ensures x & Named.raw == y & Named.raw
  {
  }

  lemma SameNamedPartSameRank(a: Level, b: Level, r: Rank)
    requires Intersection(a, Named) == Intersection(b, Named)
    ensures Contains(a, Of(r)) <==> Contains(b, Of(r))
  {
  }

  // ---------------------------------------------------------------------------
  // Set-algebra laws of the flag set.

  lemma UnionCommutes(a: Level, b: Level)
    ensures Union(a, b) == Union(b, a)
  {
  }

  lemma UnionAssociates(a: Level, b: Level, c: Level)
    ensures Union(a, Union(b, c)) == Union(Union(a, b), c)
  {
  }

  lemma IntersectionCommutes(a: Level, b: Level)
    ensures Intersection(a, b) == Intersection(b, a)
  {
  }

  lemma IntersectionAssociates(a: Level, b: Level, c: Level)
    ensures Intersection(a, Intersection(b, c)) == Intersection(Intersection(a, b), c)
  {
  }

  lemma IntersectionDistributes(a: Level, b: Level, c: Level)
    ensures Intersection(a, Union(b, c)) == Union(Intersection(a, b), Intersection(a, c))
  {
  }

  /** Containment is the order of the union: `a` contains `m` exactly when
      adding `m` to `a` changes nothing. */
  lemma ContainsIsUnionFixpoint(a: Level, m: Level)
    ensures Contains(a, m) <==> Union(a, m) == a
  {
    ContainedBits(a.raw, m.raw);
    AbsorbedBits(a.raw, m.raw);
    assert Union(a, m) == a <==> a.raw | m.raw == a.raw;
  }

  lemma ContainedBits(x: bv32, y: bv32)
    ensures x & y == y ==> x | y == x
  {
  }

  lemma AbsorbedBits(x: bv32, y: bv32)
    ensures x | y == x ==> x & y == y
  {
  }

  lemma ContainsAntisymmetric(a: Level, b: Level)
    ensures Contains(a, b) && Contains(b, a) ==> a == b
  {
  }
}
