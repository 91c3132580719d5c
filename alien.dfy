/** `Alien`, the mutable-field value object of package `Equals`: structural
    `equals` built from the `Equal` helper and `Arrays.equals`, and a
    `hashCode` folded from the same five fields in `int` arithmetic. */
module Aliens {
  import opened JavaInt
  import opened Jdk
  import Equal

  /** A value of static type `Object`, as `Alien.equals` receives it:
      `null`, an `Alien`, or an object of some other class. */
  datatype JObject = Null | AlienObject(alien: Alien) | Foreign(id: nat)

  /** The heap an `equals` call may read of its argument. */
  function ObjectFootprint(o: JObject): set<object>
    reads if o.AlienObject? then {o.alien} else {}
  {
    if o.AlienObject? then o.alien.Footprint() else {}
  }

  class Alien {
    var colour: Option<JString>
    var colourOfSpots: Option<JString>  // None if not of a spotted variety
    var numberOfEyes: Int32
    var fromZorb: bool
    var legLengths: array?<Int32>      // shared with the caller, never copied

    function Footprint(): set<object>
      reads this
    {
      {this} + if legLengths == null then {} else {legLengths}
    }

    /** Stores every argument as given; in particular the object keeps the
        caller's array reference, not a copy of it. */
    constructor (colour: Option<JString>, colourOfSpots: Option<JString>,
                 numberOfEyes: Int32, fromZorb: bool, legLengths: array?<Int32>)
      ensures this.colour == colour && this.colourOfSpots == colourOfSpots
      ensures this.numberOfEyes == numberOfEyes && this.fromZorb == fromZorb
      ensures this.legLengths == legLengths
    {
      this.colour := colour;
      this.colourOfSpots := colourOfSpots;
      this.numberOfEyes := numberOfEyes;
      this.fromZorb := fromZorb;
      this.legLengths := legLengths;
    }

    /** What structural equality of two aliens means, stated on values:
        the same nullable strings, the same numbers, and leg-length arrays
        that are both null or hold the same elements in the same order. */
    ghost predicate SameVariety(other: Alien)
      reads this, legLengths, other, other.legLengths
    {
      && colour == other.colour
      && colourOfSpots == other.colourOfSpots
      && numberOfEyes == other.numberOfEyes
      && fromZorb == other.fromZorb
      && (legLengths == null <==> other.legLengths == null)
      && (legLengths != null && other.legLengths != null ==>
            legLengths[..] == other.legLengths[..])
    }

    /** `equals(Object)`: the identity short-circuit, then the `instanceof`
        test (false for `null` and for other classes), then the field-by-field
        conjunction through the `Equal` helper and `Arrays.equals`. */
    predicate Equals(obj: JObject)
      reads Footprint(), ObjectFootprint(obj)
      ensures obj == AlienObject(this) ==> Equals(obj)
      ensures !obj.AlienObject? ==> !Equals(obj)
      ensures obj.AlienObject? ==> (Equals(obj) <==> SameVariety(obj.alien))
    {
      if obj == AlienObject(this) then true
      else if !obj.AlienObject? then false
      else
        var alien := obj.alien;
        && Equal.EqualObject(colour, alien.colour, StringEquals)
        && Equal.EqualObject(colourOfSpots, alien.colourOfSpots, StringEquals)
        && Equal.EqualLong(numberOfEyes, alien.numberOfEyes)
        && Equal.EqualBool(fromZorb, alien.fromZorb)
        && ArraysEquals(legLengths, alien.legLengths)
    }

    /** The value `hashCode` returns, in closed form: the five field terms
        folded into the seed 3 with multiplier 17, that is
        3*17^5 + c*17^4 + s*17^3 + n*17^2 + z*17 + l, reduced to an `int`.
        A null string or array contributes 0, `fromZorb` contributes 0 when
        true and 7 when false, and the array contributes the identity hash
        of its reference. */
    function HashValue(h: JdkHashes): (r: Int32)
      reads this
    {
      Wrap32(3 * 1419857
             + 83521 * NullableStringHash(h, colour)
             + 4913 * NullableStringHash(h, colourOfSpots)
             + 289 * numberOfEyes
             + 17 * (if fromZorb then 0 else 7)
             + (if legLengths == null then 0 else h.identityHash(legLengths)))
    }

    /** `hashCode()`: five straight-line `int` updates of `result`. */
    method HashCode(h: JdkHashes) returns (r: Int32)
      ensures r == HashValue(h)
    {
      var hash: Int32 := 17;
      var result: Int32 := 3;
      var colourTerm: Int32 := if colour == None then 0 else h.stringHash(colour.value);
      result := HashStep(hash, result, colourTerm);
      var spotsTerm: Int32 := if colourOfSpots == None then 0 else h.stringHash(colourOfSpots.value);
      result := HashStep(hash, result, spotsTerm);
      result := HashStep(hash, result, numberOfEyes);
      var zorbTerm: Int32 := if fromZorb then 0 else 7;
      result := HashStep(hash, result, zorbTerm);
      var legsTerm: Int32 := if legLengths == null then 0 else h.identityHash(legLengths);
      result := HashStep(hash, result, legsTerm);
      FoldOfFive(colourTerm, spotsTerm, numberOfEyes, zorbTerm, legsTerm);
      r := result;
    }

    /** A hash consistent with `equals`: the same fold, with the array term
        taken from the content (`Arrays.hashCode`) instead of the identity. */
    function ContentHashValue(h: JdkHashes): (r: Int32)
      reads this, legLengths
    {
      Wrap32(3 * 1419857
             + 83521 * NullableStringHash(h, colour)
             + 4913 * NullableStringHash(h, colourOfSpots)
             + 289 * numberOfEyes
             + 17 * (if fromZorb then 0 else 7)
             + (if legLengths == null then 0 else SeqHash(legLengths[..])))
    }

    /** `hashCode()` as its comments intend it: the last term is
        `Arrays.hashCode(legLengths)`. */
    method HashCodeByContent(h: JdkHashes) returns (r: Int32)
      ensures r == ContentHashValue(h)
    {
      var hash: Int32 := 17;
      var result: Int32 := 3;
      var colourTerm: Int32 := if colour == None then 0 else h.stringHash(colour.value);
      result := HashStep(hash, result, colourTerm);
      var spotsTerm: Int32 := if colourOfSpots == None then 0 else h.stringHash(colourOfSpots.value);
      result := HashStep(hash, result, spotsTerm);
      result := HashStep(hash, result, numberOfEyes);
      var zorbTerm: Int32 := if fromZorb then 0 else 7;
      result := HashStep(hash, result, zorbTerm);
      var legsTerm: Int32 := ArraysHashCode(legLengths);
      result := HashStep(hash, result, legsTerm);
      FoldOfFive(colourTerm, spotsTerm, numberOfEyes, zorbTerm, legsTerm);
      r := result;
    }
  }

  /** Five `int` steps `result = 17 * result + term` from the seed 3 give
      the exact polynomial in the terms, reduced modulo 2^32. */
  lemma FoldOfFive(t1: Int32, t2: Int32, t3: Int32, t4: Int32, t5: Int32)
    ensures HashStep(17, HashStep(17, HashStep(17, HashStep(17, HashStep(17, 3, t1), t2), t3), t4), t5)
         == Wrap32(3 * 1419857 + 83521 * t1 + 4913 * t2 + 289 * t3 + 17 * t4 + t5)
  {
    var e1 := 17 * 3 + t1;
    var e2 := 17 * e1 + t2;
    var e3 := 17 * e2 + t3;
    var e4 := 17 * e3 + t4;
    HashStepExact(17, 3, t1);
    HashStepExact(17, e1, t2);
    HashStepExact(17, e2, t3);
    HashStepExact(17, e3, t4);
    HashStepExact(17, e4, t5);
  }

  /** `equals` is symmetric between aliens. */
  lemma EqualsSymmetric(a: Alien, b: Alien)
    ensures a.Equals(AlienObject(b)) == b.Equals(AlienObject(a))
  {
  }

  /** `equals` is transitive between aliens. */
  lemma EqualsTransitive(a: Alien, b: Alien, c: Alien)
    requires a.Equals(AlienObject(b)) && b.Equals(AlienObject(c))
    ensures a.Equals(AlienObject(c))
  {
  }

  /** Equal aliens get equal hash codes when their leg-length arrays are the
      same reference (or both null): the only case the identity-based array
      term allows. */
  lemma EqualAliensShareHash(a: Alien, b: Alien, h: JdkHashes)
    requires a.Equals(AlienObject(b))
    requires a.legLengths == b.legLengths
    ensures a.HashValue(h) == b.HashValue(h)
  {
  }

  /** With the content hash, equal aliens always get equal hash codes. */
  lemma EqualAliensShareContentHash(a: Alien, b: Alien, h: JdkHashes)
    requires a.Equals(AlienObject(b))
    ensures a.ContentHashValue(h) == b.ContentHashValue(h)
  {
  }

  /** For every choice of library hashes: equal aliens whose leg arrays are
      both non-null and have different identity hashes get different hash
      codes. */
  lemma IdentityHashAlwaysBreaks(a: Alien, b: Alien, h: JdkHashes)
    requires a.Equals(AlienObject(b))
    requires a.legLengths != null && b.legLengths != null
    requires h.identityHash(a.legLengths) != h.identityHash(b.legLengths)
    ensures a.HashValue(h) != b.HashValue(h)
  {
  }

  /** Two aliens of the same variety whose leg lengths live in two different
      arrays are equal, yet under an identity hash that tells the two arrays
      apart their hash codes differ. */
  method IdentityHashBreaksContract() returns (one: Alien, two: Alien, h: JdkHashes)
    ensures one.Equals(AlienObject(two))
    ensures one.HashValue(h) != two.HashValue(h)
  {
    var legsOne := new Int32[3] [2, 1, 2];
    var legsTwo := new Int32[3] [2, 1, 2];
    h := JdkHashes(s => 0, t => 0, a => if a == legsOne then 1 else 0);
    one := new Alien(Some("purple"), None, 6, true, legsOne);
    two := new Alien(Some("purple"), None, 6, true, legsTwo);
    assert legsOne[..] == legsTwo[..];
  }

  /** The constructor keeps the caller's array, so writing to that array
      later changes what `equals` reports. */
  method SharedLegsScenario() returns (before: bool, after: bool)
    ensures before && !after
  {
    var legsOne := new Int32[3] [2, 1, 2];
    var legsTwo := new Int32[3] [2, 1, 2];
    var one := new Alien(Some("purple"), None, 6, true, legsOne);
    var two := new Alien(Some("purple"), None, 6, true, legsTwo);
    assert legsOne[..] == legsTwo[..];
    before := one.Equals(AlienObject(two));
    legsTwo[1] := 2;
    assert legsTwo[..][1] != legsOne[..][1];
    after := one.Equals(AlienObject(two));
  }
}
