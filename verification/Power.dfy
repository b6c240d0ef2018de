/**
  Voting power of sets of validators, and the quorum-intersection argument that
  both the consensus protocol and the light client rest on.
*/
module Power {

  type Address = nat

  datatype Option<+T> = None | Some(value: T)

  /** A validator set: the power of each member and the cached total. */
  datatype ValidatorSet = ValidatorSet(power: map<Address, nat>, total: nat) {

    /** The cached total is the power of all the members together. */
    ghost predicate Valid() {
      total == Sum(power, power.Keys)
    }

    /** The least power that is a +2/3 majority. */
    function Quorum(): nat {
      total * 2 / 3 + 1
    }
  }

  function PowerOf(power: map<Address, nat>, a: Address): nat {
    if a in power then power[a] else 0
  }

  /** The power of a set of addresses; addresses outside the validator set weigh nothing. */
  ghost function Sum(power: map<Address, nat>, s: set<Address>): nat {
    if s == {} then 0 else
    var a :| a in s;
    PowerOf(power, a) + Sum(power, s - {a})
  }

  lemma {:induction false} SumRemove(power: map<Address, nat>, s: set<Address>, a: Address)
    requires a in s
    ensures Sum(power, s) == PowerOf(power, a) + Sum(power, s - {a})
    decreases s
  {
    var b :| b in s && Sum(power, s) == PowerOf(power, b) + Sum(power, s - {b});
    if a != b {
      SumRemove(power, s - {b}, a);
      SumRemove(power, s - {a}, b);
      assert s - {b} - {a} == s - {a} - {b};
    }
  }

  lemma SumAdd(power: map<Address, nat>, s: set<Address>, a: Address)
    requires a !in s
    ensures Sum(power, s + {a}) == Sum(power, s) + PowerOf(power, a)
  {
    SumRemove(power, s + {a}, a);
    assert s + {a} - {a} == s;
  }

  lemma {:induction false} SumInclusionExclusion(power: map<Address, nat>, s: set<Address>, t: set<Address>)
    ensures Sum(power, s) + Sum(power, t) == Sum(power, s + t) + Sum(power, s * t)
    decreases t
  {
    if t == {} {
      assert s + t == s && s * t == {};
    } else {
      var a :| a in t;
      SumInclusionExclusion(power, s, t - {a});
      SumRemove(power, t, a);
      if a in s {
        SumRemove(power, s * t, a);
        assert s + (t - {a}) == s + t && s * (t - {a}) == s * t - {a};
      } else {
        SumRemove(power, s + t, a);
        assert s + (t - {a}) == s + t - {a} && s * (t - {a}) == s * t;
      }
    }
  }

  lemma SumMonotone(power: map<Address, nat>, s: set<Address>, t: set<Address>)
    requires s <= t
    ensures Sum(power, s) <= Sum(power, t)
  {
    SumInclusionExclusion(power, s, t - s);
    assert s + (t - s) == t;
  }

  /** No set of addresses outweighs the whole validator set. */
  lemma {:induction false} SumWithinTotal(vals: ValidatorSet, s: set<Address>)
    requires vals.Valid()
    ensures Sum(vals.power, s) <= vals.total
  {
    SumInclusionExclusion(vals.power, s * vals.power.Keys, s - vals.power.Keys);
    assert s * vals.power.Keys + (s - vals.power.Keys) == s;
    SumOutside(vals.power, s - vals.power.Keys);
    SumMonotone(vals.power, s * vals.power.Keys, vals.power.Keys);
  }

  lemma {:induction false} SumOutside(power: map<Address, nat>, s: set<Address>)
    requires s !! power.Keys
    ensures Sum(power, s) == 0
    decreases s
  {
    if s != {} {
      var a :| a in s;
      SumRemove(power, s, a);
      SumOutside(power, s - {a});
    }
  }

  /** `s` holds more than two thirds of the power of `vals`. */
  ghost predicate IsQuorum(vals: ValidatorSet, s: set<Address>) {
    Sum(vals.power, s) >= vals.Quorum()
  }

  /** The members of `vals` outside `correct` hold less than a third of its power. */
  ghost predicate FaultsBelowThird(vals: ValidatorSet, correct: set<Address>) {
    3 * Sum(vals.power, vals.power.Keys - correct) < vals.total
  }

  /** A set that outweighs the faulty members contains a correct member. */
  lemma OutweighsFaults(vals: ValidatorSet, s: set<Address>, correct: set<Address>)
    requires Sum(vals.power, s) > Sum(vals.power, vals.power.Keys - correct)
    ensures exists a :: a in s && a in correct && a in vals.power
  {
    if forall a :: a in s && a in correct ==> a !in vals.power {
      var inside, outside := s * vals.power.Keys, s - vals.power.Keys;
      SumInclusionExclusion(vals.power, inside, outside);
      assert inside + outside == s && inside * outside == {};
      SumOutside(vals.power, outside);
      SumMonotone(vals.power, inside, vals.power.Keys - correct);
    }
  }

  /** Any two +2/3 majorities share a correct validator. */
  lemma QuorumIntersection(vals: ValidatorSet, s: set<Address>, t: set<Address>, correct: set<Address>)
    requires vals.Valid() && FaultsBelowThird(vals, correct)
    requires IsQuorum(vals, s) && IsQuorum(vals, t)
    ensures exists a :: a in s && a in t && a in correct && a in vals.power
  {
    SumInclusionExclusion(vals.power, s, t);
    SumWithinTotal(vals, s + t);
    OutweighsFaults(vals, s * t, correct);
  }

  /** A +2/3 majority contains a correct validator. */
  lemma QuorumHasCorrect(vals: ValidatorSet, s: set<Address>, correct: set<Address>)
    requires vals.Valid() && FaultsBelowThird(vals, correct) && IsQuorum(vals, s)
    ensures exists a :: a in s && a in correct && a in vals.power
  {
    OutweighsFaults(vals, s, correct);
  }
}
