/** Names in the order every list here keeps them. */
module Names {
  import opened Lists
  import opened Text

  function ByName(): (string, string) -> bool {
    (a: string, b: string) => AtMost(a, b)
  }

  lemma ByNameIsTotal()
    ensures TotalOrder(ByName()) && Antisymmetric(ByName())
  {
    forall a: string, b: string ensures (ByName()(a, b) || ByName()(b, a)) && (ByName()(a, b) && ByName()(b, a) ==> a == b) {
      AtMostIsTotal(a, b);
    }
    forall a: string, b: string, c: string | ByName()(a, b) && ByName()(b, c) ensures ByName()(a, c) {
      AtMostIsTransitive(a, b, c);
    }
  }

  lemma {:induction false} LeastExists(names: set<string>) returns (least: string)
    requires names != {}
    ensures least in names && forall name | name in names :: AtMost(least, name)
    decreases names
  {
    var one :| one in names;
    AtMostIsTotal(one, one);
    if names - {one} == {} {
      assert forall name | name in names :: name == one by {
        forall name | name in names ensures name == one { assert name == one || name in names - {one}; }
      }
      return one;
    }
    var other := LeastExists(names - {one});
    AtMostIsTotal(one, other);
    least := if AtMost(one, other) then one else other;
    forall name | name in names ensures AtMost(least, name) {
      if name != one && least == one { AtMostIsTransitive(one, other, name); }
    }
  }

  function LeastOf(names: set<string>): (least: string)
    requires names != {}
    ensures least in names && forall name | name in names :: AtMost(least, name)
  {
    assert exists least :: least in names && forall name | name in names :: AtMost(least, name) by {
      var least := LeastExists(names);
    }
    assert forall a, b | AtMost(a, b) && AtMost(b, a) :: a == b by {
      forall a, b | AtMost(a, b) && AtMost(b, a) ensures a == b { AtMostIsTotal(a, b); }
    }
    var least :| least in names && forall name | name in names :: AtMost(least, name);
    least
  }

  /** A set of names in order, as a sorted set is walked. */
  function Ascend(names: set<string>): (r: seq<string>)
    ensures forall name :: name in r <==> name in names
    ensures Ascending(ByName(), r)
  {
    if names == {} then []
    else
      var least := LeastOf(names);
      var rest := Ascend(names - {least});
      assert forall i | 0 <= i < |rest| :: rest[i] in rest && rest[i] in names - {least};
      [least] + rest
  }
}
