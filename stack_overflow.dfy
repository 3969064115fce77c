/**
 * The single-table schema `foo (id, bar)`: conditions on `bar` grouped by
 * nested AND and OR, compiled into the plain boolean domain.
 */
module StackOverflow {

  import opened Options
  import opened Kleene
  import opened Predicates
  import opened Query
  import opened Filters
  import opened Compiler

  /** The leaf variant of this schema's conditions: `bar(value)`. */
  datatype Leaf = bar(value: int)

  type Condition = Compiler.Condition<Leaf>

  const FooIdCol := Column(Foo, Id)
  const FooBarCol := Column(Foo, Bar)

  /** `bar(v)` compiles to `bar = v`, without a lift to the nullable domain. */
  function LeafPred(l: Leaf): (p: Pred)
    ensures Columns(p) == {FooBarCol}
    ensures forall row :: FooBarCol in row ==> (Eval(p, row) == Truth.True <==> row[FooBarCol] == IntV(l.value))
  {
    Cmp(FooBarCol, Eq, IntV(l.value))
  }

  /** `Condition::to_boxed_condition` for this schema. */
  function ToBoxedCondition(c: Condition): (r: Option<Pred>)
    ensures c.Leaf? ==> r == Some(LeafPred(c.leaf))
    ensures r.None? <==> !HasLeaf(c)
    ensures r.Some? ==> Columns(r.value) <= {FooBarCol}
    ensures r.Some? ==> forall row :: Eval(r.value, row) == Denote(c, LeafPred, row)
  {
    CompileNoneIffNoLeaf(c, LeafPred);
    CompileColumns(c, LeafPred, {FooBarCol});
    forall row ensures Compile(c, LeafPred).Some? ==> Eval(Compile(c, LeafPred).value, row) == Denote(c, LeafPred, row) {
      CompileSound(c, LeafPred, row);
    }
    Compile(c, LeafPred)
  }

  /** `create_filter` for this schema. */
  function CreateFilter(cs: seq<Condition>, mode: AndOr): (r: Option<Pred>)
    ensures r.None? <==> !AnyLeaf(cs)
    ensures r.Some? ==> forall row :: Eval(r.value, row) == Verdict(mode, LiveDenotes(cs, LeafPred, row))
  {
    CreateFilterNoneIffNoLeaf(cs, mode, LeafPred);
    forall row ensures Compiler.CreateFilter(cs, mode, LeafPred).Some? ==>
        Eval(Compiler.CreateFilter(cs, mode, LeafPred).value, row) == Verdict(mode, LiveDenotes(cs, LeafPred, row)) {
      CreateFilterSound(cs, mode, LeafPred, row);
    }
    Compiler.CreateFilter(cs, mode, LeafPred)
  }

  /** A row of `foo`; `bar` is NOT NULL. */
  function FooRow(id: string, bar: int): (row: Row)
    ensures FooBarCol in row && row[FooBarCol] == IntV(bar)
  {
    map[FooIdCol := TextV(id), FooBarCol := IntV(bar)]
  }

  /**
   * The compiled predicates live in the plain boolean domain: on a row of
   * `foo` they are never Unknown.
   */
  lemma PlainBoolean(cs: seq<Condition>, mode: AndOr, id: string, bar: int)
    ensures CreateFilter(cs, mode).Some? ==> Eval(CreateFilter(cs, mode).value, FooRow(id, bar)) != Unknown
  {
    var r := CreateFilter(cs, mode);
    if r.Some? {
      CreateFilterColumns(cs, mode, LeafPred, {FooBarCol});
      TwoValued(r.value, FooRow(id, bar));
    }
  }

  /**
   * Grouping follows the tree: on the row `bar = 1`,
   * `bar = 1 OR (bar = 1 AND bar = 0)` is True and selects the row, while
   * `(bar = 1 OR bar = 1) AND bar = 0` is False and selects nothing.
   */
  lemma GroupingScenario()
    ensures var row := FooRow("1", 1);
            var orFirst := CreateFilter([Condition.Or([Leaf(bar(1)), Condition.And([Leaf(bar(1)), Leaf(bar(0))])])], AndOr.And);
            var andLast := CreateFilter([Condition.And([Condition.Or([Leaf(bar(1)), Leaf(bar(1))]), Leaf(bar(0))])], AndOr.And);
            && orFirst.Some? && Eval(orFirst.value, row) == Truth.True
            && andLast.Some? && Eval(andLast.value, row) == Truth.False
            && Load(ApplyIfPresent(Query([row], None), orFirst)) == [row]
            && Load(ApplyIfPresent(Query([row], None), andLast)) == []
  {
    OrFirstKeepsRow();
    AndLastDropsRow();
  }

  /** `bar = 1 OR (bar = 1 AND bar = 0)` is True on the row `bar = 1`. */
  lemma OrFirstKeepsRow()
    ensures var orFirst := CreateFilter([Condition.Or([Leaf(bar(1)), Condition.And([Leaf(bar(1)), Leaf(bar(0))])])], AndOr.And);
            orFirst.Some? && Eval(orFirst.value, FooRow("1", 1)) == Truth.True
  {
    var row := FooRow("1", 1);
    var b1, b0 := Leaf(bar(1)), Leaf(bar(0));
    var inner := Condition.And([b1, b0]);
    LiveDenotesOfTwo(b1, b0, LeafPred, row);
    LiveDenotesOfTwo(b1, inner, LeafPred, row);
    LoneChild(Condition.Or([b1, inner]), AndOr.And, LeafPred);
  }

  /** `(bar = 1 OR bar = 1) AND bar = 0` is False on the row `bar = 1`. */
  lemma AndLastDropsRow()
    ensures var andLast := CreateFilter([Condition.And([Condition.Or([Leaf(bar(1)), Leaf(bar(1))]), Leaf(bar(0))])], AndOr.And);
            andLast.Some? && Eval(andLast.value, FooRow("1", 1)) == Truth.False
  {
    var row := FooRow("1", 1);
    var b1, b0 := Leaf(bar(1)), Leaf(bar(0));
    var either := Condition.Or([b1, b1]);
    LiveDenotesOfTwo(b1, b1, LeafPred, row);
    LiveDenotesOfTwo(either, b0, LeafPred, row);
    LoneChild(Condition.And([either, b0]), AndOr.And, LeafPred);
  }
}
