/** `ImmutableAlien`: a value object whose state is fixed at construction.
    Its one mutable input, a `Date`, is copied on the way in and on the way
    out, and its hash code is computed lazily and cached in a field whose
    value 0 means "not computed yet". */
module Immutable {
  import opened JavaInt
  import opened Jdk

  class ImmutableAlien {
    const dateOfDiscovery: Date           // owned: never handed out
    const colour: Option<JString>
    const numberOfEyes: Option<Int32>     // a nullable `Integer`
    var hashCode: Int32                   // 0 until computed

    /** The cache holds nothing or the hash of the fields. */
    ghost predicate Valid(h: JdkHashes)
      reads this, dateOfDiscovery
    {
      hashCode == 0 || HashValue(h) == Ok(hashCode)
    }

    /** Copies the date (a `null` date fails at the copy, so callers must
        pass one) and stores the colour and eye count as given. */
    constructor (dateOfDiscovery: Date, colour: Option<JString>,
                 numberOfEyes: Option<Int32>)
      ensures fresh(this.dateOfDiscovery)
      ensures this.dateOfDiscovery.time == dateOfDiscovery.time
      ensures this.colour == colour && this.numberOfEyes == numberOfEyes
      ensures hashCode == 0
      ensures forall h :: Valid(h)
    {
      this.dateOfDiscovery := new Date(dateOfDiscovery.GetTime());
      this.colour := colour;
      this.numberOfEyes := numberOfEyes;
      this.hashCode := 0;
    }

    /** A fresh `Date` with the stored time: never the object's own. */
    method GetDateOfDiscovery() returns (d: Date)
      ensures fresh(d)
      ensures d.time == dateOfDiscovery.time
    {
      d := new Date(dateOfDiscovery.GetTime());
    }

    function GetColour(): (r: Option<JString>)
    {
      colour
    }

    /** Unboxing the `Integer` field throws when it is `null`. */
    function GetNumberOfEyes(): (r: Result<Int32>)
      ensures r.Throws? <==> numberOfEyes.None?
      ensures r.Ok? ==> numberOfEyes == Some(r.value)
    {
      if numberOfEyes.None? then Throws(NullPointerException) else Ok(numberOfEyes.value)
    }

    /** The outcome of computing the hash from the fields: the date's hash,
        the colour's (0 for `null`) and the eye count folded into the seed 3
        with multiplier 17, 3*17^3 + d*17^2 + c*17 + n reduced to an `int`;
        unboxing a `null` eye count throws. */
    function HashValue(h: JdkHashes): (r: Result<Int32>)
      reads dateOfDiscovery
    {
      if numberOfEyes.None? then Throws(NullPointerException)
      else Ok(Wrap32(3 * 4913
                     + 289 * h.dateHash(dateOfDiscovery.time)
                     + 17 * NullableStringHash(h, colour)
                     + numberOfEyes.value))
    }

    /** `hashCode()`: the cached value when there is one; otherwise the
        three-step fold, stored in the cache before it is returned. */
    method HashCode(h: JdkHashes) returns (r: Result<Int32>)
      requires Valid(h)
      modifies this
      ensures Valid(h)
      ensures r == HashValue(h)
      ensures old(hashCode) != 0 ==> r == Ok(old(hashCode)) && hashCode == old(hashCode)
      ensures old(hashCode) == 0 ==> hashCode == (if r.Ok? then r.value else 0)
    {
      if hashCode != 0 {
        return Ok(hashCode);
      }
      var hash: Int32 := 17;
      var result: Int32 := 3;
      var dateTerm := h.dateHash(dateOfDiscovery.GetTime());
      result := HashStep(hash, result, dateTerm);
      var colourTerm: Int32 := if colour == None then 0 else h.stringHash(colour.value);
      result := HashStep(hash, result, colourTerm);
      if numberOfEyes.None? {
        return Throws(NullPointerException);
      }
      result := HashStep(hash, result, numberOfEyes.value);
      FoldOfThree(dateTerm, colourTerm, numberOfEyes.value);
      hashCode := result;
      r := Ok(result);
    }
  }

  /** Three `int` steps `result = 17 * result + term` from the seed 3 give
      the exact polynomial in the terms, reduced modulo 2^32. */
  lemma FoldOfThree(t1: Int32, t2: Int32, t3: Int32)
    ensures HashStep(17, HashStep(17, HashStep(17, 3, t1), t2), t3)
         == Wrap32(3 * 4913 + 289 * t1 + 17 * t2 + t3)
  {
    var e1 := 17 * 3 + t1;
    var e2 := 17 * e1 + t2;
    HashStepExact(17, 3, t1);
    HashStepExact(17, e1, t2);
    HashStepExact(17, e2, t3);
  }

  /** Objects built from dates with the same time, the same colour and the
      same eye count have the same hash, whatever the date objects are. */
  lemma SameFieldsSameHash(a: ImmutableAlien, b: ImmutableAlien, h: JdkHashes)
    requires a.dateOfDiscovery.time == b.dateOfDiscovery.time
    requires a.colour == b.colour && a.numberOfEyes == b.numberOfEyes
    ensures a.HashValue(h) == b.HashValue(h)
  {
  }

  /** The getters give back what the constructor received, and the object
      owns its date: changing the caller's date after construction, or a
      date the getter returned, changes nothing the object reports, and each
      call of the getter returns a distinct `Date`. */
  method DefensiveCopies(time: Int64, later: Int64, colour: Option<JString>,
                         eyes: Option<Int32>)
    returns (first: Int64, second: Int64, distinct: bool,
             gotColour: Option<JString>, gotEyes: Result<Int32>)
    ensures first == time && second == time && distinct
    ensures gotColour == colour
    ensures gotEyes == if eyes.None? then Throws(NullPointerException) else Ok(eyes.value)
  {
    var date := new Date(time);
    var alien := new ImmutableAlien(date, colour, eyes);
    date.SetTime(later);
    var d1 := alien.GetDateOfDiscovery();
    first := d1.GetTime();
    d1.SetTime(later);
    var d2 := alien.GetDateOfDiscovery();
    second := d2.GetTime();
    distinct := d1 != d2;
    gotColour := alien.GetColour();
    gotEyes := alien.GetNumberOfEyes();
  }

  /** Calling `hashCode` twice gives the same result, and after the first
      successful call the cache holds it (unless the hash is 0, which the
      cache cannot tell from "not computed"). */
  method HashTwice(alien: ImmutableAlien, h: JdkHashes)
    returns (first: Result<Int32>, second: Result<Int32>)
    requires alien.Valid(h)
    modifies alien
    ensures alien.Valid(h)
    ensures first == second
    ensures first.Ok? && first.value != 0 ==> alien.hashCode == first.value
  {
    first := alien.HashCode(h);
    second := alien.HashCode(h);
  }

  /** Two objects built from distinct `Date` instances with the same time,
      and the same colour and eye count, report the same hash code. */
  method SameInputsSameHash(time: Int64, colour: Option<JString>,
                            eyes: Option<Int32>, h: JdkHashes)
    returns (r1: Result<Int32>, r2: Result<Int32>)
    ensures r1 == r2
    ensures eyes.Some? <==> r1.Ok?
  {
    var date1 := new Date(time);
    var date2 := new Date(time);
    var a := new ImmutableAlien(date1, colour, eyes);
    var b := new ImmutableAlien(date2, colour, eyes);
    r1 := a.HashCode(h);
    r2 := b.HashCode(h);
  }
}
