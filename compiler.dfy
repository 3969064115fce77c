/**
 * The predicate compiler shared by every schema: a condition tree whose
 * leaves are the schema's own filter variants, `to_boxed_condition`, which
 * compiles one node, and `create_filter`, which compiles a list of nodes,
 * drops the ones that compile to nothing and left-folds the rest with one
 * mode. A schema supplies only how a leaf compiles (`leaf`).
 */
module Compiler {

  import opened Options
  import opened Kleene
  import opened Predicates
  import opened Filters

  /** A condition: a leaf filter on a field, or an AND or OR group of conditions. */
  datatype Condition<L> = Leaf(leaf: L) | And(children: seq<Condition<L>>) | Or(children: seq<Condition<L>>)

  /** The step of the fold: `bc.and(p)` or `bc.or(p)`. */
  function Combine(mode: AndOr, a: Pred, b: Pred): (r: Pred)
    ensures Columns(r) == Columns(a) + Columns(b)
    ensures forall row :: Eval(r, row) == ModeOp(mode, Eval(a, row), Eval(b, row))
  {
    match mode
    case And => PAnd(a, b)
    case Or => POr(a, b)
  }

  /** The connective of a mode in three-valued logic. */
  function ModeOp(mode: AndOr, a: Truth, b: Truth): Truth {
    match mode
    case And => And3(a, b)
    case Or => Or3(a, b)
  }

  /**
   * The fold closure: the first surviving predicate seeds the accumulator,
   * every later one is combined onto it with the mode's connective.
   */
  function Step(acc: Option<Pred>, p: Pred, mode: AndOr): (r: Pred)
    ensures forall row :: Eval(r, row) ==
              if acc.Some? then ModeOp(mode, Eval(acc.value, row), Eval(p, row)) else Eval(p, row)
  {
    match acc
    case Some(bc) => Combine(mode, bc, p)
    case None => p
  }

  /** `fold(acc, |acc, p| Some(Step(acc, p)))` over `ps`, left to right. */
  function Fold(acc: Option<Pred>, ps: seq<Pred>, mode: AndOr): (r: Option<Pred>)
    ensures r.None? <==> acc.None? && ps == []
    decreases ps
  {
    if ps == [] then acc else Fold(Some(Step(acc, ps[0], mode)), ps[1..], mode)
  }

  /**
   * `to_boxed_condition`: a leaf always compiles; a group compiles to its own
   * `create_filter`, so it yields nothing only when none of its children does.
   */
  function Compile<L>(c: Condition<L>, leaf: L -> Pred): (r: Option<Pred>)
    ensures c.Leaf? ==> r.Some?
    ensures r.None? ==> !c.Leaf? && Survivors(c.children, leaf) == []
    decreases c, 1
  {
    match c
    case Leaf(l) => Some(leaf(l))
    case And(cs) => CreateFilter(cs, AndOr.And, leaf)
    case Or(cs) => CreateFilter(cs, AndOr.Or, leaf)
  }

  /** `filter_map(to_boxed_condition)`: the compiled predicates of the children that compile, in order. */
  function Survivors<L>(cs: seq<Condition<L>>, leaf: L -> Pred): (r: seq<Pred>)
    ensures |r| <= |cs|
    decreases cs, 0
  {
    if cs == [] then []
    else
      var rest := Survivors(cs[1..], leaf);
      match Compile(cs[0], leaf)
      case Some(p) => [p] + rest
      case None => rest
  }

  /** `create_filter(conditions, and_or)`: something comes back exactly when some child compiles. */
  function CreateFilter<L>(cs: seq<Condition<L>>, mode: AndOr, leaf: L -> Pred): (r: Option<Pred>)
    ensures r.Some? <==> Survivors(cs, leaf) != []
    decreases cs, 2
  {
    Fold(None, Survivors(cs, leaf), mode)
  }

  // ----- The shape of the result: a left fold in input order -----

  /**
   * The left-nested combination `((p1 op p2) op p3) … op pn` of a non-empty
   * list; a single predicate stands alone.
   */
  function Chain(ps: seq<Pred>, mode: AndOr): Pred
    requires ps != []
    decreases |ps|
  {
    if |ps| == 1 then ps[0] else Combine(mode, Chain(ps[..|ps| - 1], mode), ps[|ps| - 1])
  }

  lemma {:induction false} FoldFromChain(pre: seq<Pred>, rest: seq<Pred>, mode: AndOr)
    requires pre != []
    ensures Fold(Some(Chain(pre, mode)), rest, mode) == Some(Chain(pre + rest, mode))
    decreases |rest|
  {
    if rest == [] {
      assert pre + rest == pre;
    } else {
      var pre' := pre + [rest[0]];
      assert pre'[..|pre'| - 1] == pre;
      assert Chain(pre', mode) == Step(Some(Chain(pre, mode)), rest[0], mode);
      FoldFromChain(pre', rest[1..], mode);
      assert pre' + rest[1..] == pre + rest;
    }
  }

  /** Folding from `None` gives nothing for no predicates, and their left-nested chain otherwise. */
  lemma FoldIsChain(ps: seq<Pred>, mode: AndOr)
    ensures Fold(None, ps, mode) == if ps == [] then None else Some(Chain(ps, mode))
  {
    if ps != [] {
      assert Chain([ps[0]], mode) == ps[0];
      FoldFromChain([ps[0]], ps[1..], mode);
      assert [ps[0]] + ps[1..] == ps;
    }
  }

  /**
   * `create_filter` yields nothing when no child survives, the lone survivor
   * unwrapped when one does, and otherwise the survivors combined left to
   * right, in input order, with the mode passed in.
   */
  lemma CreateFilterIsLeftFold<L>(cs: seq<Condition<L>>, mode: AndOr, leaf: L -> Pred)
    ensures var ps := Survivors(cs, leaf);
            CreateFilter(cs, mode, leaf) == if ps == [] then None else Some(Chain(ps, mode))
    ensures |Survivors(cs, leaf)| == 1 ==> CreateFilter(cs, mode, leaf) == Some(Survivors(cs, leaf)[0])
  {
    FoldIsChain(Survivors(cs, leaf), mode);
  }

  // ----- When there is no predicate -----

  /** The condition contains at least one leaf. */
  predicate HasLeaf<L>(c: Condition<L>)
    decreases c, 1
  {
    match c
    case Leaf(_) => true
    case And(cs) => AnyLeaf(cs)
    case Or(cs) => AnyLeaf(cs)
  }

  /** Some condition of the list contains a leaf. */
  predicate AnyLeaf<L>(cs: seq<Condition<L>>)
    decreases cs, 0
  {
    cs != [] && (HasLeaf(cs[0]) || AnyLeaf(cs[1..]))
  }

  /** A condition compiles to `None` exactly when it contains no leaf. */
  lemma {:induction false} CompileNoneIffNoLeaf<L>(c: Condition<L>, leaf: L -> Pred)
    ensures Compile(c, leaf).None? <==> !HasLeaf(c)
    decreases c, 1
  {
    match c
    case Leaf(_) =>
    case And(cs) =>
      SurvivorsEmptyIffNoLeaf(cs, leaf);
    case Or(cs) =>
      SurvivorsEmptyIffNoLeaf(cs, leaf);
  }

  lemma {:induction false} SurvivorsEmptyIffNoLeaf<L>(cs: seq<Condition<L>>, leaf: L -> Pred)
    ensures Survivors(cs, leaf) == [] <==> !AnyLeaf(cs)
    decreases cs, 0
  {
    if cs != [] {
      CompileNoneIffNoLeaf(cs[0], leaf);
      SurvivorsEmptyIffNoLeaf(cs[1..], leaf);
    }
  }

  /**
   * `create_filter` yields `None` for the empty list and for any list with
   * no leaf anywhere in it, and `Some` otherwise: never an always-true or
   * always-false stand-in.
   */
  lemma CreateFilterNoneIffNoLeaf<L>(cs: seq<Condition<L>>, mode: AndOr, leaf: L -> Pred)
    ensures CreateFilter(cs, mode, leaf).None? <==> !AnyLeaf(cs)
    ensures CreateFilter([], mode, leaf) == None
  {
    SurvivorsEmptyIffNoLeaf(cs, leaf);
  }

  // ----- Empty groups vanish; grouping follows the tree -----

  lemma {:induction false} SurvivorsAppend<L>(a: seq<Condition<L>>, b: seq<Condition<L>>, leaf: L -> Pred)
    ensures Survivors(a + b, leaf) == Survivors(a, leaf) + Survivors(b, leaf)
  {
    if a == [] {
      assert a + b == b;
    } else {
      assert (a + b)[0] == a[0] && (a + b)[1..] == a[1..] + b;
      SurvivorsAppend(a[1..], b, leaf);
    }
  }

  /**
   * Inserting a condition without leaves (such as `And([])` or `Or([])`)
   * anywhere in a list leaves what the list compiles to unchanged.
   */
  lemma InsertLeaflessUnchanged<L>(cs: seq<Condition<L>>, i: nat, e: Condition<L>, mode: AndOr, leaf: L -> Pred)
    requires i <= |cs|
    requires !HasLeaf(e)
    ensures CreateFilter(cs[..i] + [e] + cs[i..], mode, leaf) == CreateFilter(cs, mode, leaf)
  {
    CompileNoneIffNoLeaf(e, leaf);
    assert [e][0] == e && [e][1..] == [];
    assert Survivors([e], leaf) == [];
    SurvivorsAppend(cs[..i] + [e], cs[i..], leaf);
    SurvivorsAppend(cs[..i], [e], leaf);
    SurvivorsAppend(cs[..i], cs[i..], leaf);
    assert cs[..i] + cs[i..] == cs;
    assert Survivors(cs[..i], leaf) + [] == Survivors(cs[..i], leaf);
    assert Survivors(cs[..i] + [e] + cs[i..], leaf) == Survivors(cs, leaf);
  }

  /** `And([])` and `Or([])` compile to `None`, and inserting either into a list changes nothing. */
  lemma EmptyGroupsVanish<L>(cs: seq<Condition<L>>, i: nat, mode: AndOr, leaf: L -> Pred)
    requires i <= |cs|
    ensures Compile(Condition.And([]), leaf) == None && Compile(Condition.Or([]), leaf) == None
    ensures CreateFilter(cs[..i] + [Condition.And([])] + cs[i..], mode, leaf) == CreateFilter(cs, mode, leaf)
    ensures CreateFilter(cs[..i] + [Condition.Or([])] + cs[i..], mode, leaf) == CreateFilter(cs, mode, leaf)
  {
    InsertLeaflessUnchanged(cs, i, Condition.And([]), mode, leaf);
    InsertLeaflessUnchanged(cs, i, Condition.Or([]), mode, leaf);
  }

  /**
   * A lone nested group compiles with its own mode whatever mode the
   * enclosing list is folded with: grouping is fixed by the tree's shape.
   */
  lemma GroupingFollowsShape<L>(cs: seq<Condition<L>>, outer: AndOr, leaf: L -> Pred)
    ensures CreateFilter([Condition.And(cs)], outer, leaf) == CreateFilter(cs, AndOr.And, leaf)
    ensures CreateFilter([Condition.Or(cs)], outer, leaf) == CreateFilter(cs, AndOr.Or, leaf)
  {
    LoneChild(Condition.And(cs), outer, leaf);
    LoneChild(Condition.Or(cs), outer, leaf);
  }

  /** A list of one condition compiles to what that condition compiles to. */
  lemma LoneChild<L>(c: Condition<L>, mode: AndOr, leaf: L -> Pred)
    ensures CreateFilter([c], mode, leaf) == Compile(c, leaf)
  {
    assert [c][0] == c && [c][1..] == [];
    match Compile(c, leaf)
    case Some(p) =>
      assert Survivors([c], leaf) == [p];
      FoldIsChain([p], mode);
    case None =>
      assert Survivors([c], leaf) == [];
  }

  // ----- What a compiled condition means -----

  /**
   * A group's verdict on the values of its members, stated without any
   * fold: AND is False when some member is False, else Unknown when some
   * member is Unknown, else True; OR is the dual.
   */
  function Verdict(mode: AndOr, ts: seq<Truth>): Truth {
    match mode
    case And => if Truth.False in ts then Truth.False else if Unknown in ts then Unknown else Truth.True
    case Or => if Truth.True in ts then Truth.True else if Unknown in ts then Unknown else Truth.False
  }

  /** The values of predicates on one row, in order. */
  function Evals(ps: seq<Pred>, row: Row): (ts: seq<Truth>)
    ensures |ts| == |ps|
    ensures forall i :: 0 <= i < |ps| ==> ts[i] == Eval(ps[i], row)
  {
    if ps == [] then [] else [Eval(ps[0], row)] + Evals(ps[1..], row)
  }

  /** The left-nested chain evaluates to the group's verdict on its members. */
  lemma {:induction false} EvalChain(ps: seq<Pred>, mode: AndOr, row: Row)
    requires ps != []
    ensures Eval(Chain(ps, mode), row) == Verdict(mode, Evals(ps, row))
    decreases |ps|
  {
    var ts := Evals(ps, row);
    if |ps| == 1 {
      assert ts == [Eval(ps[0], row)];
    } else {
      var init, last := ps[..|ps| - 1], ps[|ps| - 1];
      calc {
        Eval(Chain(ps, mode), row);
        Eval(Combine(mode, Chain(init, mode), last), row);
        ModeOp(mode, Eval(Chain(init, mode), row), Eval(last, row));
        { EvalChain(init, mode, row); }
        ModeOp(mode, Verdict(mode, Evals(init, row)), Eval(last, row));
        { VerdictSnoc(mode, Evals(init, row), Eval(last, row)); }
        Verdict(mode, Evals(init, row) + [Eval(last, row)]);
        { assert ts == Evals(init, row) + [Eval(last, row)]; }
        Verdict(mode, ts);
      }
    }
  }

  /** Adding one value at the end of a group combines it with the group's verdict. */
  lemma VerdictSnoc(mode: AndOr, ts: seq<Truth>, t: Truth)
    ensures Verdict(mode, ts + [t]) == ModeOp(mode, Verdict(mode, ts), t)
  {
    assert forall x :: x in ts + [t] <==> x in ts || x == t;
  }

  /**
   * The meaning of a condition on a row, independent of how it is
   * compiled: a leaf means its compiled comparison; a group means its
   * verdict on those of its members that contain a leaf.
   */
  function Denote<L>(c: Condition<L>, leaf: L -> Pred, row: Row): Truth
    decreases c, 1
  {
    match c
    case Leaf(l) => Eval(leaf(l), row)
    case And(cs) => Verdict(AndOr.And, LiveDenotes(cs, leaf, row))
    case Or(cs) => Verdict(AndOr.Or, LiveDenotes(cs, leaf, row))
  }

  /** The meanings of the members of a list that contain a leaf, in order. */
  function LiveDenotes<L>(cs: seq<Condition<L>>, leaf: L -> Pred, row: Row): seq<Truth>
    decreases cs, 0
  {
    if cs == [] then []
    else (if HasLeaf(cs[0]) then [Denote(cs[0], leaf, row)] else []) + LiveDenotes(cs[1..], leaf, row)
  }

  /**
   * Compilation is correct: when a condition compiles to a predicate, that
   * predicate evaluates on every row to the condition's meaning.
   */
  lemma {:induction false} CompileSound<L>(c: Condition<L>, leaf: L -> Pred, row: Row)
    ensures Compile(c, leaf).Some? ==> Eval(Compile(c, leaf).value, row) == Denote(c, leaf, row)
    decreases c, 1
  {
    match c
    case Leaf(_) =>
    case And(cs) =>
      CreateFilterSound(cs, AndOr.And, leaf, row);
    case Or(cs) =>
      CreateFilterSound(cs, AndOr.Or, leaf, row);
  }

  /** The predicate `create_filter` builds, when there is one, evaluates to the verdict of the mode on the list's live members. */
  lemma {:induction false} CreateFilterSound<L>(cs: seq<Condition<L>>, mode: AndOr, leaf: L -> Pred, row: Row)
    ensures CreateFilter(cs, mode, leaf).Some? ==>
              Eval(CreateFilter(cs, mode, leaf).value, row) == Verdict(mode, LiveDenotes(cs, leaf, row))
    decreases cs, 2
  {
    var ps := Survivors(cs, leaf);
    FoldIsChain(ps, mode);
    if ps != [] {
      EvalChain(ps, mode, row);
      SurvivorsSound(cs, leaf, row);
    }
  }

  lemma {:induction false} SurvivorsSound<L>(cs: seq<Condition<L>>, leaf: L -> Pred, row: Row)
    ensures Evals(Survivors(cs, leaf), row) == LiveDenotes(cs, leaf, row)
    decreases cs, 0
  {
    if cs != [] {
      CompileNoneIffNoLeaf(cs[0], leaf);
      CompileSound(cs[0], leaf, row);
      SurvivorsSound(cs[1..], leaf, row);
      match Compile(cs[0], leaf)
      case Some(p) =>
        var rest := Survivors(cs[1..], leaf);
        assert Evals([p] + rest, row) == [Eval(p, row)] + Evals(rest, row);
      case None =>
    }
  }

  /** A group of the given mode. */
  function Group<L>(mode: AndOr, cs: seq<Condition<L>>): Condition<L> {
    match mode
    case And => Condition.And(cs)
    case Or => Condition.Or(cs)
  }

  /**
   * Within one mode the grouping does not change the value:
   * `[a, [b, c]]` and `[[a, b], c]` compile and evaluate alike on every row.
   */
  lemma RegroupWithinMode<L>(mode: AndOr, a: L, b: L, c: L, leaf: L -> Pred, row: Row)
    ensures var right := Group(mode, [Leaf(a), Group(mode, [Leaf(b), Leaf(c)])]);
            var left := Group(mode, [Group(mode, [Leaf(a), Leaf(b)]), Leaf(c)]);
            Compile(right, leaf).Some? && Compile(left, leaf).Some? &&
            Eval(Compile(right, leaf).value, row) == Eval(Compile(left, leaf).value, row)
  {
    var right := Group(mode, [Leaf(a), Group(mode, [Leaf(b), Leaf(c)])]);
    var left := Group(mode, [Group(mode, [Leaf(a), Leaf(b)]), Leaf(c)]);
    CompileNoneIffNoLeaf(right, leaf);
    CompileNoneIffNoLeaf(left, leaf);
    CompileSound(right, leaf, row);
    CompileSound(left, leaf, row);
    var inner1 := Group(mode, [Leaf(b), Leaf(c)]);
    var inner2 := Group(mode, [Leaf(a), Leaf(b)]);
    assert HasLeaf(inner1) && HasLeaf(inner2);
    LiveDenotesOfTwo(Leaf(b), Leaf(c), leaf, row);
    LiveDenotesOfTwo(Leaf(a), Leaf(b), leaf, row);
    LiveDenotesOfTwo(Leaf(a), inner1, leaf, row);
    LiveDenotesOfTwo(inner2, Leaf(c), leaf, row);
  }

  lemma LiveDenotesOfTwo<L>(x: Condition<L>, y: Condition<L>, leaf: L -> Pred, row: Row)
    requires HasLeaf(x) && HasLeaf(y)
    ensures LiveDenotes([x, y], leaf, row) == [Denote(x, leaf, row), Denote(y, leaf, row)]
  {
    assert [x, y][0] == x && [x, y][1..] == [y];
    assert [y][0] == y && [y][1..] == [];
    assert LiveDenotes([y], leaf, row) == [Denote(y, leaf, row)] + LiveDenotes([], leaf, row);
  }

  /** A compiled condition mentions no column beyond those its leaves compile against. */
  lemma {:induction false} CompileColumns<L>(c: Condition<L>, leaf: L -> Pred, cols: set<Column>)
    requires forall l :: Columns(leaf(l)) <= cols
    ensures Compile(c, leaf).Some? ==> Columns(Compile(c, leaf).value) <= cols
    decreases c, 1
  {
    match c
    case Leaf(_) =>
    case And(cs) =>
      CreateFilterColumns(cs, AndOr.And, leaf, cols);
    case Or(cs) =>
      CreateFilterColumns(cs, AndOr.Or, leaf, cols);
  }

  lemma {:induction false} CreateFilterColumns<L>(cs: seq<Condition<L>>, mode: AndOr, leaf: L -> Pred, cols: set<Column>)
    requires forall l :: Columns(leaf(l)) <= cols
    ensures CreateFilter(cs, mode, leaf).Some? ==> Columns(CreateFilter(cs, mode, leaf).value) <= cols
    decreases cs, 2
  {
    var ps := Survivors(cs, leaf);
    FoldIsChain(ps, mode);
    SurvivorsColumns(cs, leaf, cols);
    if ps != [] {
      ChainColumns(ps, mode, cols);
    }
  }

  lemma {:induction false} SurvivorsColumns<L>(cs: seq<Condition<L>>, leaf: L -> Pred, cols: set<Column>)
    requires forall l :: Columns(leaf(l)) <= cols
    ensures forall p :: p in Survivors(cs, leaf) ==> Columns(p) <= cols
    decreases cs, 0
  {
    if cs != [] {
      CompileColumns(cs[0], leaf, cols);
      SurvivorsColumns(cs[1..], leaf, cols);
    }
  }

  lemma {:induction false} ChainColumns(ps: seq<Pred>, mode: AndOr, cols: set<Column>)
    requires ps != []
    requires forall p :: p in ps ==> Columns(p) <= cols
    ensures Columns(Chain(ps, mode)) <= cols
    decreases |ps|
  {
    if |ps| > 1 {
      var init := ps[..|ps| - 1];
      assert forall p :: p in init ==> p in ps;
      ChainColumns(init, mode, cols);
    }
  }
}
