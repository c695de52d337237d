/**
 * A fact about finite sets of keys stated as a lemma, so that a choice
 * `var k :| k in s` has a witness to stand on.
 */
module Sets {

  lemma NonEmptyHasMember(s: set<int>)
    requires s != {}
    ensures exists k :: k in s
  {
    if forall k :: k !in s {
      assert false;
    }
  }
}
