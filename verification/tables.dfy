/** Tables as finite maps from row id to row, and the rowid SQLite hands out
    to a new row of a table declared `INTEGER PRIMARY KEY` without the
    AUTOINCREMENT keyword: one more than the largest id in use, or 1 when
    the table is empty.
 */
module Tables {

  /** A non-empty set has a member. */
  lemma HasMember(s: set<int>)
    requires s != {}
    ensures exists x :: x in s
  {
    if forall x :: x !in s {
      assert false;
    }
  }

  /** `m` is the largest element of `s`. */
  predicate IsMax(s: set<int>, m: int) {
    m in s && forall k :: k in s ==> k <= m
  }

  /** `m` is the smallest element of `s`. */
  predicate IsMin(s: set<int>, m: int) {
    m in s && forall k :: k in s ==> m <= k
  }

  /** Every non-empty finite set of integers has a largest element. */
  lemma {:induction false} MaxExists(s: set<int>)
    requires s != {}
    ensures exists m :: IsMax(s, m)
    decreases s
  {
    HasMember(s);
    var x :| x in s;
    var rest := s - {x};
    if rest == {} {
      forall k | k in s
        ensures k == x
      {
        assert k in rest || k == x;
      }
      assert IsMax(s, x);
    } else {
      MaxExists(rest);
      var m :| IsMax(rest, m);
      var top := if x <= m then m else x;
      forall k | k in s
        ensures k <= top
      {
        if k != x {
          assert k in rest;
        }
      }
      assert IsMax(s, top);
    }
  }

  /** Every non-empty finite set of integers has a smallest element. */
  lemma {:induction false} MinExists(s: set<int>)
    requires s != {}
    ensures exists m :: IsMin(s, m)
    decreases s
  {
    HasMember(s);
    var x :| x in s;
    var rest := s - {x};
    if rest == {} {
      forall k | k in s
        ensures k == x
      {
        assert k in rest || k == x;
      }
      assert IsMin(s, x);
    } else {
      MinExists(rest);
      var m :| IsMin(rest, m);
      var bottom := if m <= x then m else x;
      forall k | k in s
        ensures bottom <= k
      {
        if k != x {
          assert k in rest;
        }
      }
      assert IsMin(s, bottom);
    }
  }

  function MaxOf(s: set<int>): (m: int)
    requires s != {}
    ensures m in s && forall k :: k in s ==> k <= m
  {
    MaxExists(s);
    var m :| IsMax(s, m);
    m
  }

  function MinOf(s: set<int>): (m: int)
    requires s != {}
    ensures m in s && forall k :: k in s ==> m <= k
  {
    MinExists(s);
    var m :| IsMin(s, m);
    m
  }

  /** The id the next insert into `t` receives. */
  function FreshId<R>(t: map<int, R>): (id: int)
    ensures id !in t
    ensures forall k :: k in t ==> k < id
    ensures (forall k :: k in t ==> k >= 1) ==> id >= 1
  {
    if t == map[] then 1 else MaxOf(t.Keys) + 1
  }

  /** `after` is `before` plus the row `row` under the new id `id`. */
  ghost predicate Added<R>(before: map<int, R>, after: map<int, R>, id: int, row: R) {
    && id !in before
    && (forall k :: k in before ==> k < id)
    && after == before[id := row]
  }

  /** Appends `row` under a fresh id and reports that id. */
  function Insert<R>(t: map<int, R>, row: R): (r: (map<int, R>, int))
    ensures Added(t, r.0, r.1, row)
    ensures (forall k :: k in t ==> k >= 1) ==> r.1 >= 1
  {
    var id := FreshId(t);
    (t[id := row], id)
  }
}
