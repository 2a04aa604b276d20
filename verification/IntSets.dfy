/** Witnesses out of finite sets and maps, and the extremes of integer sets. */
module IntSets {

  lemma PickFrom<T>(s: set<T>) returns (x: T)
    requires s != {}
    ensures x in s
  {
    x :| x in s;
  }

  lemma PickKey<K, V>(m: map<K, V>, v: V) returns (k: K)
    requires v in m.Values
    ensures k in m && m[k] == v
  {
    k :| k in m && m[k] == v;
  }

  lemma {:induction false} FindLeast(s: set<int>) returns (v: int)
    requires s != {}
    ensures v in s && forall u | u in s :: v <= u
  {
    v := PickFrom(s);
    var rest := s - {v};
    assert forall u | u in s :: u == v || u in rest;
    if rest != {} {
      var w := FindLeast(rest);
      v := if w <= v then w else v;
    }
  }

  lemma LeastExists(s: set<int>)
    requires s != {}
    ensures exists v :: v in s && forall u | u in s :: v <= u
  {
    var v := FindLeast(s);
  }

  lemma {:induction false} FindGreatest(s: set<int>) returns (v: int)
    requires s != {}
    ensures v in s && forall u | u in s :: u <= v
  {
    v := PickFrom(s);
    var rest := s - {v};
    assert forall u | u in s :: u == v || u in rest;
    if rest != {} {
      var w := FindGreatest(rest);
      v := if w <= v then v else w;
    }
  }

  lemma GreatestExists(s: set<int>)
    requires s != {}
    ensures exists v :: v in s && forall u | u in s :: u <= v
  {
    var v := FindGreatest(s);
  }
}
