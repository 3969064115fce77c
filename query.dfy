/**
 * The query side that consumes a compiled predicate: a source of joined
 * rows, a WHERE clause built with `filter`, the inner and left joins the
 * schemas use, and what loading a query returns.
 */
module Query {

  import opened Options
  import opened Kleene
  import opened Predicates

  /** A query: the rows of its (joined) source and its WHERE clause, if any. */
  datatype Query = Query(source: seq<Row>, where: Option<Pred>)

  /** The rows of `rows`, in order, on which `p` is True. */
  function Where(rows: seq<Row>, p: Pred): (r: seq<Row>)
    ensures |r| <= |rows|
  {
    if rows == [] then []
    else (if Eval(p, rows[0]) == True then [rows[0]] else []) + Where(rows[1..], p)
  }

  /** WHERE keeps exactly the rows of the source on which the predicate is True. */
  lemma {:induction false} WhereMember(rows: seq<Row>, p: Pred, row: Row)
    ensures row in Where(rows, p) <==> row in rows && Eval(p, row) == True
  {
    if rows != [] {
      WhereMember(rows[1..], p, row);
      assert row in rows <==> row == rows[0] || row in rows[1..] by {
        assert rows == [rows[0]] + rows[1..];
      }
    }
  }

  /** WHERE distributes over concatenation: the row order of the source is kept. */
  lemma {:induction false} WhereAppend(a: seq<Row>, b: seq<Row>, p: Pred)
    ensures Where(a + b, p) == Where(a, p) + Where(b, p)
  {
    if a == [] {
      assert a + b == b;
    } else {
      var x, a' := a[0], a[1..];
      var head := if Eval(p, x) == True then [x] else [];
      calc {
        Where(a + b, p);
        { assert (a + b)[0] == x && (a + b)[1..] == a' + b; }
        head + Where(a' + b, p);
        { WhereAppend(a', b, p); }
        head + (Where(a', p) + Where(b, p));
        (head + Where(a', p)) + Where(b, p);
      }
    }
  }

  /** `query.filter(p)`: a second filter is ANDed onto the WHERE clause already there. */
  function Filter(q: Query, p: Pred): (r: Query)
    ensures r.source == q.source && r.where.Some?
    ensures forall row :: Eval(r.where.value, row) == True <==>
              (q.where.Some? ==> Eval(q.where.value, row) == True) && Eval(p, row) == True
  {
    Query(q.source, Some(if q.where.Some? then PAnd(q.where.value, p) else p))
  }

  /** The rows a query loads. */
  function Load(q: Query): (r: seq<Row>)
    ensures q.where.None? ==> r == q.source
    ensures forall row :: row in r <==> row in q.source && (q.where.Some? ==> Eval(q.where.value, row) == True)
  {
    if q.where.Some? then
      (forall row ensures row in Where(q.source, q.where.value) <==> row in q.source && Eval(q.where.value, row) == True {
         WhereMember(q.source, q.where.value, row);
       }
       Where(q.source, q.where.value))
    else q.source
  }

  /**
   * The shared tail of `create_filtered_query`: the compiled predicate
   * becomes a filter only when there is one; `None` leaves the query as it was.
   */
  function ApplyIfPresent(q: Query, filter: Option<Pred>): (r: Query)
    requires q.where.None?
    ensures filter.None? ==> r == q
    ensures Load(r) == if filter.Some? then Where(q.source, filter.value) else q.source
  {
    match filter
    case Some(p) => Filter(q, p)
    case None => q
  }

  /** The ON condition `l.lc = r.rc`: both sides present and equal. */
  predicate JoinMatch(l: Row, r: Row, lc: Column, rc: Column) {
    lc in l && rc in r && l[lc] == r[rc]
  }

  /** The rows of `rs`, in order, that join with `l`. */
  function Matching(l: Row, rs: seq<Row>, lc: Column, rc: Column): (m: seq<Row>)
    ensures |m| <= |rs|
    ensures forall r :: r in m <==> r in rs && JoinMatch(l, r, lc, rc)
  {
    if rs == [] then []
    else (if JoinMatch(l, rs[0], lc, rc) then [rs[0]] else []) + Matching(l, rs[1..], lc, rc)
  }

  /** `l` paired with each row of `rs`: their columns side by side. */
  function Pair(l: Row, rs: seq<Row>): (m: seq<Row>)
    ensures |m| == |rs|
    ensures forall i :: 0 <= i < |rs| ==> m[i] == l + rs[i]
  {
    if rs == [] then [] else [l + rs[0]] + Pair(l, rs[1..])
  }

  /**
   * `ls INNER JOIN rs ON ls.lc = rs.rc`: each left row with every right row
   * it matches, so at most one row per pair of a left and a right row.
   */
  function InnerJoin(ls: seq<Row>, rs: seq<Row>, lc: Column, rc: Column): (r: seq<Row>)
    ensures |r| <= |ls| * |rs|
  {
    if ls == [] then []
    else
      var r := Pair(ls[0], Matching(ls[0], rs, lc, rc)) + InnerJoin(ls[1..], rs, lc, rc);
      assert |r| <= |rs| + (|ls| - 1) * |rs|;
      assert |rs| + (|ls| - 1) * |rs| == |ls| * |rs|;
      r
  }

  /**
   * `ls LEFT JOIN rs ON ls.lc = rs.rc`: each left row with every right row it
   * matches, or alone (every right column NULL) when it matches none; so
   * every left row gives at least one row.
   */
  function LeftJoin(ls: seq<Row>, rs: seq<Row>, lc: Column, rc: Column): (r: seq<Row>)
    ensures |r| >= |ls|
  {
    if ls == [] then []
    else
      var m := Matching(ls[0], rs, lc, rc);
      (if m == [] then [ls[0]] else Pair(ls[0], m)) + LeftJoin(ls[1..], rs, lc, rc)
  }

  lemma PairMember(l: Row, rs: seq<Row>, row: Row)
    ensures row in Pair(l, rs) <==> exists r :: r in rs && row == l + r
  {
    var m := Pair(l, rs);
    if row in m {
      var i :| 0 <= i < |m| && m[i] == row;
      assert rs[i] in rs;
    }
  }

  /** Some row of `ls` joined with some row of `rs` gives `row`. */
  ghost predicate MergedPair(ls: seq<Row>, rs: seq<Row>, lc: Column, rc: Column, row: Row) {
    exists l, r :: l in ls && r in rs && JoinMatch(l, r, lc, rc) && row == l + r
  }

  /** `l` matches no row of `rs`. */
  ghost predicate Unmatched(l: Row, rs: seq<Row>, lc: Column, rc: Column) {
    forall r :: r in rs ==> !JoinMatch(l, r, lc, rc)
  }

  /** The rows of an inner join are exactly the merged pairs that satisfy the ON condition. */
  lemma {:induction false} InnerJoinMember(ls: seq<Row>, rs: seq<Row>, lc: Column, rc: Column, row: Row)
    ensures row in InnerJoin(ls, rs, lc, rc) <==> MergedPair(ls, rs, lc, rc, row)
  {
    if ls != [] {
      InnerJoinMember(ls[1..], rs, lc, rc, row);
      PairMember(ls[0], Matching(ls[0], rs, lc, rc), row);
      assert forall l :: l in ls <==> l == ls[0] || l in ls[1..] by {
        assert ls == [ls[0]] + ls[1..];
      }
    }
  }

  /**
   * The rows of a left join: every matching pair merged, and each left row
   * that matches no right row, alone.
   */
  lemma {:induction false} LeftJoinMember(ls: seq<Row>, rs: seq<Row>, lc: Column, rc: Column, row: Row)
    ensures row in LeftJoin(ls, rs, lc, rc) <==>
              MergedPair(ls, rs, lc, rc, row) || (row in ls && Unmatched(row, rs, lc, rc))
  {
    if ls != [] {
      var l0, tail := ls[0], ls[1..];
      LeftJoinMember(tail, rs, lc, rc, row);
      var m := Matching(l0, rs, lc, rc);
      var head := if m == [] then [l0] else Pair(l0, m);
      assert LeftJoin(ls, rs, lc, rc) == head + LeftJoin(tail, rs, lc, rc);
      assert forall l :: l in ls <==> l == l0 || l in tail by {
        assert ls == [l0] + tail;
      }
      assert MergedPair(ls, rs, lc, rc, row) <==>
        MergedPair([l0], rs, lc, rc, row) || MergedPair(tail, rs, lc, rc, row);
      assert m == [] <==> Unmatched(l0, rs, lc, rc) by {
        if m != [] { assert m[0] in m; }
      }
      PairMember(l0, m, row);
      assert row in Pair(l0, m) <==> MergedPair([l0], rs, lc, rc, row) by {
        if MergedPair([l0], rs, lc, rc, row) {
          var l, r :| l in [l0] && r in rs && JoinMatch(l, r, lc, rc) && row == l + r;
          assert r in m;
        }
      }
      if m == [] {
        assert !MergedPair([l0], rs, lc, rc, row);
      }
    }
  }

  /** Every row of an inner join holds the columns every left row and every right row holds. */
  lemma {:induction false} InnerJoinColumns(ls: seq<Row>, rs: seq<Row>, lc: Column, rc: Column, lcols: set<Column>, rcols: set<Column>)
    requires forall l :: l in ls ==> lcols <= l.Keys
    requires forall r :: r in rs ==> rcols <= r.Keys
    ensures forall row :: row in InnerJoin(ls, rs, lc, rc) ==> lcols + rcols <= row.Keys
  {
    if ls != [] {
      assert ls[0] in ls;
      assert forall l :: l in ls[1..] ==> l in ls;
      InnerJoinColumns(ls[1..], rs, lc, rc, lcols, rcols);
      var m := Matching(ls[0], rs, lc, rc);
      forall row | row in Pair(ls[0], m) ensures lcols + rcols <= row.Keys {
        PairMember(ls[0], m, row);
      }
    }
  }

  /** Every row of a left join holds the columns every left row holds. */
  lemma {:induction false} LeftJoinColumns(ls: seq<Row>, rs: seq<Row>, lc: Column, rc: Column, lcols: set<Column>)
    requires forall l :: l in ls ==> lcols <= l.Keys
    ensures forall row :: row in LeftJoin(ls, rs, lc, rc) ==> lcols <= row.Keys
  {
    if ls != [] {
      assert ls[0] in ls;
      assert forall l :: l in ls[1..] ==> l in ls;
      LeftJoinColumns(ls[1..], rs, lc, rc, lcols);
      var m := Matching(ls[0], rs, lc, rc);
      forall row | row in Pair(ls[0], m) ensures lcols <= row.Keys {
        PairMember(ls[0], m, row);
      }
    }
  }

  /** A left join keeps the order of its left side: it distributes over concatenation there. */
  lemma {:induction false} LeftJoinAppend(a: seq<Row>, b: seq<Row>, rs: seq<Row>, lc: Column, rc: Column)
    ensures LeftJoin(a + b, rs, lc, rc) == LeftJoin(a, rs, lc, rc) + LeftJoin(b, rs, lc, rc)
  {
    if a == [] {
      assert a + b == b;
    } else {
      assert (a + b)[0] == a[0] && (a + b)[1..] == a[1..] + b;
      LeftJoinAppend(a[1..], b, rs, lc, rc);
    }
  }
}
