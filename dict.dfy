/** Visiting the keys of a Python dict: both scripts loop over a snapshot of
    a dict's keys in an order Python does not promise. Neither script means
    to depend on that order, but the result of the schedule reload of
    stream_ref.py does, so a loop here takes the keys in any order. */
module Dict {

  /** A non-empty set has a member. */
  lemma HasMember<K>(s: set<K>)
    requires s != {}
    ensures exists k :: k in s
  {
    if forall k :: k !in s {
      assert false;
    }
  }

  /** Some key of a non-empty snapshot: the next one a loop visits. */
  method Choose<K>(s: set<K>) returns (k: K)
    requires s != {}
    ensures k in s
  {
    HasMember(s);
    k :| k in s;
  }
}
