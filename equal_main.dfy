/** The demonstration in `Equal.main`: seven aliens, six comparisons with
    alien one, and the results its comments expect. */
module EqualMain {
  import opened JavaInt
  import opened Jdk
  import opened Aliens

  /** Alien two is of the same variety as alien one; aliens three to seven
      each differ from it in exactly one field (colour, spots, eyes, planet,
      leg lengths) and are not equal to it. */
  method EqualityScenario() returns (two: bool, three: bool, four: bool,
                                     five: bool, six: bool, seven: bool)
    ensures two
    ensures !three && !four && !five && !six && !seven
  {
    var threeLegsUneven := new Int32[3] [2, 1, 2];
    var threeLegsEven := new Int32[3] [2, 2, 2];
    var one := new Alien(Some("purple"), None, 6, true, threeLegsUneven);
    var alienTwo := new Alien(Some("purple"), None, 6, true, threeLegsUneven);
    var alienThree := new Alien(Some("red"), None, 6, true, threeLegsUneven);
    var alienFour := new Alien(Some("purple"), Some("green"), 6, true, threeLegsUneven);
    var alienFive := new Alien(Some("purple"), None, 2, true, threeLegsUneven);
    var alienSix := new Alien(Some("purple"), None, 6, false, threeLegsUneven);
    var alienSeven := new Alien(Some("purple"), None, 6, true, threeLegsEven);
    assert threeLegsUneven[..][1] != threeLegsEven[..][1];

    two := one.Equals(AlienObject(alienTwo));
    three := one.Equals(AlienObject(alienThree));
    four := one.Equals(AlienObject(alienFour));
    five := one.Equals(AlienObject(alienFive));
    six := one.Equals(AlienObject(alienSix));
    seven := one.Equals(AlienObject(alienSeven));
  }
}
