/** Smallest and largest years of a finite set of years. */
module YearKeys {

  lemma Element(s: set<int>) returns (x: int)
    requires s != {}
    ensures x in s
  {
    assert (forall j :: j !in s) ==> s == {};
    x :| x in s;
  }

  lemma {:induction false} MaxExists(s: set<int>)
    requires s != {}
    ensures exists k :: k in s && forall j :: j in s ==> j <= k
    decreases s
  {
    var x := Element(s);
    var rest := s - {x};
    if rest == {} {
      forall j | j in s ensures j <= x {
        assert j == x || j in rest;
      }
    } else {
      MaxExists(rest);
      var k :| k in rest && forall j :: j in rest ==> j <= k;
      var m := if x <= k then k else x;
      forall j | j in s ensures j <= m {
        assert j == x || j in rest;
      }
    }
  }

  lemma {:induction false} MinExists(s: set<int>)
    requires s != {}
    ensures exists k :: k in s && forall j :: j in s ==> k <= j
    decreases s
  {
    var x := Element(s);
    var rest := s - {x};
    if rest == {} {
      forall j | j in s ensures x <= j {
        assert j == x || j in rest;
      }
    } else {
      MinExists(rest);
      var k :| k in rest && forall j :: j in rest ==> k <= j;
      var m := if k <= x then k else x;
      forall j | j in s ensures m <= j {
        assert j == x || j in rest;
      }
    }
  }

  /** The largest year of a non-empty set (pandas `index.max()`). */
  function MaxKey(s: set<int>): (k: int)
    requires s != {}
    ensures k in s && forall j :: j in s ==> j <= k
  {
    MaxExists(s);
    var k :| k in s && forall j :: j in s ==> j <= k; k
  }

  /** The smallest year of a non-empty set (the next year `sorted` yields). */
  function MinKey(s: set<int>): (k: int)
    requires s != {}
    ensures k in s && forall j :: j in s ==> k <= j
  {
    MinExists(s);
    var k :| k in s && forall j :: j in s ==> k <= j; k
  }
}
