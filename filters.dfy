/**
 * The closed leaf-filter kinds and the comparison each variant builds
 * against a column (`number_filter!`, `string_filter!`, `boolean_filter!`),
 * and the two modes a group of conditions is combined with.
 *
 * Every leaf is lifted with `.nullable()` into the nullable-boolean domain;
 * that lift changes the SQL type only, so the compiled predicates below
 * carry no node for it: their three-valued meaning is `Predicates.Eval`.
 */
module Filters {

  import opened Kleene
  import opened Options
  import opened Predicates

  datatype NumberFilter =
    | Equal(value: int)
    | NotEqual(value: int)
    | GreaterThen(value: int)
    | LowerThen(value: int)
    | IsNull
    | IsNotNull

  datatype StringFilter =
    | Equal(value: string)
    | NotEqual(value: string)
    | Like(pattern: string)
    | In(values: seq<string>)

  datatype BooleanFilter = True | False | IsNull | IsNotNull

  /** How the compiled children of a group are combined. */
  datatype AndOr = And | Or

  /** `number_filter!(f, col)`: one comparison against `col`. */
  function NumberFilterPred(f: NumberFilter, col: Column): (p: Pred)
    ensures Columns(p) == {col}
  {
    match f
    case Equal(v) => Cmp(col, Eq, IntV(v))
    case NotEqual(v) => Cmp(col, Ne, IntV(v))
    case GreaterThen(v) => Cmp(col, Gt, IntV(v))
    case LowerThen(v) => Cmp(col, Lt, IntV(v))
    case IsNull => Pred.IsNull(col)
    case IsNotNull => Pred.IsNotNull(col)
  }

  function TextValues(vs: seq<string>): (r: seq<Value>)
    ensures |r| == |vs|
    ensures forall s :: TextV(s) in r <==> s in vs
    ensures forall v :: v in r ==> v.TextV?
  {
    if vs == [] then [] else [TextV(vs[0])] + TextValues(vs[1..])
  }

  /** `string_filter!(f, col)`: one comparison against `col`. */
  function StringFilterPred(f: StringFilter, col: Column): (p: Pred)
    ensures Columns(p) == {col}
  {
    match f
    case Equal(s) => Cmp(col, Eq, TextV(s))
    case NotEqual(s) => Cmp(col, Ne, TextV(s))
    case Like(pattern) => Pred.Like(col, pattern)
    case In(vs) => EqAny(col, TextValues(vs))
  }

  /** `boolean_filter!(f, col)`: one comparison against `col`. */
  function BooleanFilterPred(f: BooleanFilter, col: Column): (p: Pred)
    ensures Columns(p) == {col}
  {
    match f
    case True => Cmp(col, Eq, BoolV(true))
    case False => Cmp(col, Eq, BoolV(false))
    case IsNull => Pred.IsNull(col)
    case IsNotNull => Pred.IsNotNull(col)
  }

  // The meaning of each filter kind on the field's value, NULL being None.

  function NumberMeaning(f: NumberFilter, x: Option<int>): Truth {
    match f
    case IsNull => FromBool(x.None?)
    case IsNotNull => FromBool(x.Some?)
    case _ =>
      if x.None? then Unknown
      else match f
        case Equal(v) => FromBool(x.value == v)
        case NotEqual(v) => FromBool(x.value != v)
        case GreaterThen(v) => FromBool(x.value > v)
        case LowerThen(v) => FromBool(x.value < v)
  }

  function StringMeaning(f: StringFilter, x: Option<string>): Truth {
    match f
    case In(vs) =>
      if vs == [] then Truth.False
      else if x.None? then Unknown
      else FromBool(x.value in vs)
    case _ =>
      if x.None? then Unknown
      else match f
        case Equal(s) => FromBool(x.value == s)
        case NotEqual(s) => FromBool(x.value != s)
        case Like(pattern) => FromBool(LikePattern.Matches(pattern, x.value))
  }

  function BooleanMeaning(f: BooleanFilter, x: Option<bool>): Truth {
    match f
    case IsNull => FromBool(x.None?)
    case IsNotNull => FromBool(x.Some?)
    case True => if x.None? then Unknown else FromBool(x.value)
    case False => if x.None? then Unknown else FromBool(!x.value)
  }

  // A row holds a value of the column's type, or NULL.

  function IntAt(row: Row, col: Column): Option<int>
    requires col in row ==> row[col].IntV?
  {
    if col in row then Some(row[col].i) else None
  }

  function TextAt(row: Row, col: Column): Option<string>
    requires col in row ==> row[col].TextV?
  {
    if col in row then Some(row[col].s) else None
  }

  function BoolAt(row: Row, col: Column): Option<bool>
    requires col in row ==> row[col].BoolV?
  {
    if col in row then Some(row[col].b) else None
  }

  /** Each numeric filter compiles to the comparison its name says, on the column it is given. */
  lemma NumberFilterSound(f: NumberFilter, col: Column, row: Row)
    requires col in row ==> row[col].IntV?
    ensures Eval(NumberFilterPred(f, col), row) == NumberMeaning(f, IntAt(row, col))
  {
  }

  /** Each string filter compiles to the comparison its name says; IN is membership in the list. */
  lemma StringFilterSound(f: StringFilter, col: Column, row: Row)
    requires col in row ==> row[col].TextV?
    ensures Eval(StringFilterPred(f, col), row) == StringMeaning(f, TextAt(row, col))
  {
    if f.In? && col in row && f.values != [] {
      assert row[col] == TextV(row[col].s);
    }
  }

  /** `True` and `False` are `col = true` and `col = false`; the null checks test for NULL. */
  lemma BooleanFilterSound(f: BooleanFilter, col: Column, row: Row)
    requires col in row ==> row[col].BoolV?
    ensures Eval(BooleanFilterPred(f, col), row) == BooleanMeaning(f, BoolAt(row, col))
  {
  }

  /** Distinct numeric filters build distinct comparisons on the same column. */
  lemma NumberFilterInjective(f: NumberFilter, g: NumberFilter, col: Column)
    requires NumberFilterPred(f, col) == NumberFilterPred(g, col)
    ensures f == g
  {
  }

  /**
   * IS NULL and IS NOT NULL, on any column and whether the value is present
   * or absent, are never Unknown and exactly one of them is True.
   */
  lemma NullChecksComplementary(col: Column, row: Row)
    ensures Eval(NumberFilterPred(NumberFilter.IsNull, col), row) != Unknown
    ensures Eval(NumberFilterPred(NumberFilter.IsNotNull, col), row) != Unknown
    ensures (Eval(NumberFilterPred(NumberFilter.IsNull, col), row) == Truth.True) !=
            (Eval(NumberFilterPred(NumberFilter.IsNotNull, col), row) == Truth.True)
    ensures Eval(BooleanFilterPred(BooleanFilter.IsNull, col), row) ==
            Eval(NumberFilterPred(NumberFilter.IsNull, col), row)
    ensures Eval(BooleanFilterPred(BooleanFilter.IsNotNull, col), row) ==
            Eval(NumberFilterPred(NumberFilter.IsNotNull, col), row)
  {
  }

  /** Value comparisons against a NULL column are Unknown (IN over an empty list excepted: it is False). */
  lemma AbsentIsUnknown(col: Column, row: Row, nf: NumberFilter, sf: StringFilter)
    requires col !in row
    requires !nf.IsNull? && !nf.IsNotNull?
    requires !(sf.In? && sf.values == [])
    ensures Eval(NumberFilterPred(nf, col), row) == Unknown
    ensures Eval(StringFilterPred(sf, col), row) == Unknown
    ensures Eval(BooleanFilterPred(BooleanFilter.True, col), row) == Unknown
    ensures Eval(BooleanFilterPred(BooleanFilter.False, col), row) == Unknown
  {
  }

  /** On a present text, `In(values)` is True when the text is one of `values` and False otherwise. */
  lemma InIsMembership(vs: seq<string>, col: Column, row: Row, s: string)
    requires col in row && row[col] == TextV(s)
    ensures Eval(StringFilterPred(In(vs), col), row) == if s in vs then Truth.True else Truth.False
  {
  }

  /** On a present boolean exactly one of `True` and `False` holds, and neither is Unknown. */
  lemma BooleanFiltersExclusive(col: Column, row: Row, b: bool)
    requires col in row && row[col] == BoolV(b)
    ensures Eval(BooleanFilterPred(BooleanFilter.True, col), row) != Unknown
    ensures Eval(BooleanFilterPred(BooleanFilter.False, col), row) != Unknown
    ensures (Eval(BooleanFilterPred(BooleanFilter.True, col), row) == Truth.True) !=
            (Eval(BooleanFilterPred(BooleanFilter.False, col), row) == Truth.True)
  {
  }
}
