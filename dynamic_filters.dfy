/**
 * The flat ancestor of the compiler, over the single table
 * `test (id, number_field, text_field, bool_field)` whose columns are all
 * NOT NULL: a list of conditions, each mapped to one comparison, folded
 * with AND into a plain boolean predicate.
 */
module DynamicFilters {

  import opened Options
  import opened Kleene
  import opened Predicates
  import opened Query
  import LikePattern
  import Filters
  import C = Compiler

  datatype NumberFilter = Equal(value: int) | NotEqual(value: int) | GreaterThen(value: int) | LowerThen(value: int)

  datatype StringFilter = Equal(value: string) | NotEqual(value: string) | Like(pattern: string)

  /** A condition on one of the three filterable columns; there are no groups. */
  datatype Condition = number_field(number: NumberFilter) | text_field(text: StringFilter) | bool_field(flag: bool)

  const TestIdCol := Column(Test, Id)
  const NumberFieldCol := Column(Test, NumberField)
  const TextFieldCol := Column(Test, TextField)
  const BoolFieldCol := Column(Test, BoolField)

  datatype TestRecord = TestRecord(id: string, numberField: int, textField: string, boolField: bool)

  function TestRow(r: TestRecord): (row: Row)
    ensures row.Keys == {TestIdCol, NumberFieldCol, TextFieldCol, BoolFieldCol}
  {
    map[TestIdCol := TextV(r.id), NumberFieldCol := IntV(r.numberField),
        TextFieldCol := TextV(r.textField), BoolFieldCol := BoolV(r.boolField)]
  }

  function TestRows(rs: seq<TestRecord>): (rows: seq<Row>)
    ensures |rows| == |rs|
    ensures forall i :: 0 <= i < |rs| ==> rows[i] == TestRow(rs[i])
  {
    if rs == [] then [] else [TestRow(rs[0])] + TestRows(rs[1..])
  }

  /** What a condition says of a record, in the host language's own terms. */
  predicate Holds(c: Condition, r: TestRecord) {
    match c
    case number_field(f) =>
      (match f
       case Equal(v) => r.numberField == v
       case NotEqual(v) => r.numberField != v
       case GreaterThen(v) => r.numberField > v
       case LowerThen(v) => r.numberField < v)
    case text_field(f) =>
      (match f
       case Equal(s) => r.textField == s
       case NotEqual(s) => r.textField != s
       case Like(pattern) => LikePattern.Matches(pattern, r.textField))
    case bool_field(b) => r.boolField == b
  }

  /**
   * The `map` step: `number_field` filters become `=`, `<>`, `>`, `<`;
   * `text_field` filters become `=`, `<>`, LIKE; `bool_field(v)` becomes
   * `bool_field = v`. On a row of `test` the comparison is never Unknown and
   * is True exactly when the condition holds of the record.
   */
  function ToPred(c: Condition): (p: Pred)
    ensures Columns(p) <= {NumberFieldCol, TextFieldCol, BoolFieldCol}
    ensures forall r :: Eval(p, TestRow(r)) == FromBool(Holds(c, r))
  {
    match c
    case number_field(f) =>
      (match f
       case Equal(v) => Cmp(NumberFieldCol, Eq, IntV(v))
       case NotEqual(v) => Cmp(NumberFieldCol, Ne, IntV(v))
       case GreaterThen(v) => Cmp(NumberFieldCol, Gt, IntV(v))
       case LowerThen(v) => Cmp(NumberFieldCol, Lt, IntV(v)))
    case text_field(f) =>
      (match f
       case Equal(s) => Cmp(TextFieldCol, Eq, TextV(s))
       case NotEqual(s) => Cmp(TextFieldCol, Ne, TextV(s))
       case Like(pattern) => Pred.Like(TextFieldCol, pattern))
    case bool_field(b) => Cmp(BoolFieldCol, Eq, BoolV(b))
  }

  function ToPreds(cs: seq<Condition>): (ps: seq<Pred>)
    ensures |ps| == |cs|
    ensures forall i :: 0 <= i < |cs| ==> ps[i] == ToPred(cs[i])
  {
    if cs == [] then [] else [ToPred(cs[0])] + ToPreds(cs[1..])
  }

  /**
   * `create_filter`: nothing for an empty list; otherwise the comparisons
   * `c1 AND c2 AND … AND cn`, left-nested in input order, which on a row of
   * `test` is True exactly when every condition holds and False otherwise.
   */
  function CreateFilter(cs: seq<Condition>): (r: Option<Pred>)
    ensures r.None? <==> cs == []
    ensures r.Some? ==> r.value == C.Chain(ToPreds(cs), Filters.AndOr.And)
    ensures r.Some? ==> forall rec :: Eval(r.value, TestRow(rec)) == FromBool(AllHold(cs, rec))
  {
    var ps := ToPreds(cs);
    C.FoldIsChain(ps, Filters.AndOr.And);
    forall rec | ps != [] ensures Eval(C.Chain(ps, Filters.AndOr.And), TestRow(rec)) == FromBool(AllHold(cs, rec)) {
      C.EvalChain(ps, Filters.AndOr.And, TestRow(rec));
      var ts := C.Evals(ps, TestRow(rec));
      assert AllHold(cs, rec) <==> Truth.False !in ts by {
        if Truth.False in ts {
          var i :| 0 <= i < |ts| && ts[i] == Truth.False;
          assert !Holds(cs[i], rec);
        }
      }
      assert Unknown !in ts;
    }
    C.Fold(None, ps, Filters.AndOr.And)
  }

  // The rows of the repository's test: ids 1, 2, 3 with the column defaults, then 4.1 and 4.2.

  const R1 := TestRecord("1", 1, "", false)
  const R2 := TestRecord("2", 2, "", false)
  const R3 := TestRecord("3", 3, "", false)
  const R41 := TestRecord("4.1", 4, "4.1", false)
  const R42 := TestRecord("4.2", 4, "4.2", true)

  /**
   * The rows a list of conditions selects from a table: the test's
   * `.filter(create_filter(cs).unwrap())`. The source panics on an empty
   * list, where this returns the whole table; it stands for the unwrapped
   * call only on the non-empty lists the tests pass (`SelectKeeps`).
   */
  function Select(rs: seq<TestRecord>, cs: seq<Condition>): seq<Row> {
    Load(ApplyIfPresent(Query(TestRows(rs), None), CreateFilter(cs)))
  }

  predicate AllHold(cs: seq<Condition>, r: TestRecord) {
    forall i :: 0 <= i < |cs| ==> Holds(cs[i], r)
  }

  /** The records, in order, of which every condition holds. */
  function KeptBy(rs: seq<TestRecord>, cs: seq<Condition>): seq<TestRecord> {
    if rs == [] then [] else (if AllHold(cs, rs[0]) then [rs[0]] else []) + KeptBy(rs[1..], cs)
  }

  lemma {:induction false} TestRowsAppend(a: seq<TestRecord>, b: seq<TestRecord>)
    ensures TestRows(a + b) == TestRows(a) + TestRows(b)
  {
  }

  lemma {:induction false} WhereKeeps(rs: seq<TestRecord>, cs: seq<Condition>)
    requires cs != []
    ensures Where(TestRows(rs), CreateFilter(cs).value) == TestRows(KeptBy(rs, cs))
  {
    if rs != [] {
      var p := CreateFilter(cs).value;
      WhereKeeps(rs[1..], cs);
      var head := if AllHold(cs, rs[0]) then [rs[0]] else [];
      assert TestRows(rs)[0] == TestRow(rs[0]);
      assert TestRows(rs)[1..] == TestRows(rs[1..]);
      assert Eval(p, TestRow(rs[0])) == Truth.True <==> AllHold(cs, rs[0]);
      assert (if Eval(p, TestRow(rs[0])) == Truth.True then [TestRow(rs[0])] else []) == TestRows(head);
      TestRowsAppend(head, KeptBy(rs[1..], cs));
    }
  }

  /**
   * Filtering a table with a non-empty list of conditions keeps, in table
   * order, exactly the rows of which every condition holds.
   */
  lemma SelectKeeps(rs: seq<TestRecord>, cs: seq<Condition>)
    requires cs != []
    ensures Select(rs, cs) == TestRows(KeptBy(rs, cs))
  {
    WhereKeeps(rs, cs);
  }

  /** On rows 1, 2, 3, `Equal(1)` selects 1. */
  lemma EqualScenario()
    ensures Select([R1, R2, R3], [number_field(NumberFilter.Equal(1))]) == [TestRow(R1)]
  {
    var cs := [number_field(NumberFilter.Equal(1))];
    SelectKeeps([R1, R2, R3], cs);
    assert AllHold(cs, R1);
    assert !AllHold(cs, R2) by { assert !Holds(cs[0], R2); }
    assert !AllHold(cs, R3) by { assert !Holds(cs[0], R3); }
    KeptOnlyFirst(R1, R2, R3, cs);
  }

  /** On rows 1, 2, 3, `NotEqual(1)` selects 2 and 3. */
  lemma NotEqualScenario()
    ensures Select([R1, R2, R3], [number_field(NumberFilter.NotEqual(1))]) == [TestRow(R2), TestRow(R3)]
  {
    var cs := [number_field(NumberFilter.NotEqual(1))];
    SelectKeeps([R1, R2, R3], cs);
    assert !AllHold(cs, R1) by { assert !Holds(cs[0], R1); }
    assert AllHold(cs, R2);
    assert AllHold(cs, R3);
    KeptAllButFirst(R1, R2, R3, cs);
  }

  /** A record of which some condition fails is not kept. */
  lemma KeptBySkip(rs: seq<TestRecord>, cs: seq<Condition>)
    requires rs != [] && !AllHold(cs, rs[0])
    ensures KeptBy(rs, cs) == KeptBy(rs[1..], cs)
  {
  }

  /** A record of which every condition holds is kept, ahead of the rest. */
  lemma KeptByTake(rs: seq<TestRecord>, cs: seq<Condition>)
    requires rs != [] && AllHold(cs, rs[0])
    ensures KeptBy(rs, cs) == [rs[0]] + KeptBy(rs[1..], cs)
  {
  }

  /** Of three records the conditions hold of the first only: it is all that is kept. */
  lemma KeptOnlyFirst(a: TestRecord, b: TestRecord, c: TestRecord, cs: seq<Condition>)
    requires AllHold(cs, a) && !AllHold(cs, b) && !AllHold(cs, c)
    ensures KeptBy([a, b, c], cs) == [a]
  {
    var s := [a, b, c];
    assert s[1..][1..] == [c] && [c][1..] == [];
    KeptByTake(s, cs);
    KeptBySkip(s[1..], cs);
    KeptBySkip([c], cs);
  }

  /** Of three records the conditions hold of all but the first: those two are kept. */
  lemma KeptAllButFirst(a: TestRecord, b: TestRecord, c: TestRecord, cs: seq<Condition>)
    requires !AllHold(cs, a) && AllHold(cs, b) && AllHold(cs, c)
    ensures KeptBy([a, b, c], cs) == [b, c]
  {
    var s := [a, b, c];
    assert s[1..][1..] == [c] && [c][1..] == [];
    KeptBySkip(s, cs);
    KeptByTake(s[1..], cs);
    KeptByTake([c], cs);
    assert [b] + ([c] + []) == [b, c];
  }

  /** Of five records the conditions hold of the last only: it is all that is kept. */
  lemma KeptOnlyLast(a: TestRecord, b: TestRecord, c: TestRecord, d: TestRecord, e: TestRecord, cs: seq<Condition>)
    requires !AllHold(cs, a) && !AllHold(cs, b) && !AllHold(cs, c) && !AllHold(cs, d) && AllHold(cs, e)
    ensures KeptBy([a, b, c, d, e], cs) == [e]
  {
    var s := [a, b, c, d, e];
    assert s[1..] == [b, c, d, e] && s[1..][1..] == [c, d, e] && s[1..][1..][1..] == [d, e];
    assert [d, e][1..] == [e] && [e][1..] == [];
    KeptBySkip(s, cs);
    KeptBySkip([b, c, d, e], cs);
    KeptBySkip([c, d, e], cs);
    KeptBySkip([d, e], cs);
    KeptByTake([e], cs);
  }

  /** Of five records the conditions hold of the second only: it is all that is kept, also of the first three. */
  lemma KeptOnlySecond(a: TestRecord, b: TestRecord, c: TestRecord, d: TestRecord, e: TestRecord, cs: seq<Condition>)
    requires !AllHold(cs, a) && AllHold(cs, b) && !AllHold(cs, c) && !AllHold(cs, d) && !AllHold(cs, e)
    ensures KeptBy([a, b, c], cs) == [b]
    ensures KeptBy([a, b, c, d, e], cs) == [b]
  {
    var s := [a, b, c, d, e];
    assert s[1..] == [b, c, d, e] && [b, c, d, e][1..] == [c, d, e] && [c, d, e][1..] == [d, e];
    assert [d, e][1..] == [e] && [e][1..] == [];
    KeptBySkip(s, cs);
    KeptByTake([b, c, d, e], cs);
    KeptBySkip([c, d, e], cs);
    KeptBySkip([d, e], cs);
    KeptBySkip([e], cs);
    var t := [a, b, c];
    assert t[1..] == [b, c] && [b, c][1..] == [c] && [c][1..] == [];
    KeptBySkip(t, cs);
    KeptByTake([b, c], cs);
    KeptBySkip([c], cs);
  }

  lemma BetweenHolds(cs: seq<Condition>)
    requires cs == [number_field(GreaterThen(1)), number_field(LowerThen(3))]
    ensures !AllHold(cs, R1) && AllHold(cs, R2) && !AllHold(cs, R3) && !AllHold(cs, R41) && !AllHold(cs, R42)
  {
    assert !Holds(cs[0], R1);
    assert !Holds(cs[1], R3);
    assert !Holds(cs[1], R41);
    assert !Holds(cs[1], R42);
  }

  /** `GreaterThen(1)` with `LowerThen(3)` selects 2, before and after rows 4.1 and 4.2 are added. */
  lemma BetweenScenario()
    ensures Select([R1, R2, R3], [number_field(GreaterThen(1)), number_field(LowerThen(3))]) == [TestRow(R2)]
    ensures Select([R1, R2, R3, R41, R42], [number_field(GreaterThen(1)), number_field(LowerThen(3))]) == [TestRow(R2)]
  {
    var cs := [number_field(GreaterThen(1)), number_field(LowerThen(3))];
    SelectKeeps([R1, R2, R3], cs);
    SelectKeeps([R1, R2, R3, R41, R42], cs);
    BetweenHolds(cs);
    KeptOnlySecond(R1, R2, R3, R41, R42, cs);
  }

  /** `Like("%4%")` holds of the text "4.2". */
  lemma LikeFourMatches()
    ensures LikePattern.Matches("%4%", "4.2")
  {
    assert "%4%" == [LikePattern.AnyRun, '4', LikePattern.AnyRun];
    LikePattern.ContainsPattern('4', "4.2");
    assert "4.2"[0] == '4';
  }

  lemma MixedHolds(cs: seq<Condition>)
    requires cs == [number_field(GreaterThen(1)), text_field(StringFilter.Like("%4%")), bool_field(true)]
    ensures !AllHold(cs, R1) && !AllHold(cs, R2) && !AllHold(cs, R3) && !AllHold(cs, R41) && AllHold(cs, R42)
  {
    LikeFourMatches();
    assert !Holds(cs[0], R1);
    assert !Holds(cs[2], R2);
    assert !Holds(cs[2], R3);
    assert !Holds(cs[2], R41);
    assert Holds(cs[1], R42);
  }

  /** `GreaterThen(1)`, `Like("%4%")` and `bool_field(true)` together select only 4.2. */
  lemma MixedScenario()
    ensures Select([R1, R2, R3, R41, R42], [number_field(GreaterThen(1)), text_field(StringFilter.Like("%4%")), bool_field(true)])
              == [TestRow(R42)]
  {
    var cs := [number_field(GreaterThen(1)), text_field(StringFilter.Like("%4%")), bool_field(true)];
    SelectKeeps([R1, R2, R3, R41, R42], cs);
    MixedHolds(cs);
    KeptOnlyLast(R1, R2, R3, R41, R42, cs);
  }
}
