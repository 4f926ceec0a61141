/** Small facts about finite sets. */
module Sets {

  // some element of a nonempty set
  ghost function Pick(s: set<int>): (x: int)
    requires s != {}
    ensures x in s
  {
    assert (forall y :: y !in s) ==> s == {};
    var x :| x in s; x
  }
}
