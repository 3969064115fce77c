/**
 * Compiled predicates: the boolean SQL expressions that the compiler builds
 * and the query applies as a WHERE clause, and their value on one row of a
 * (possibly outer-joined) data source.
 */
module Predicates {

  import opened Kleene
  import LikePattern

  /** The tables of the schemas the compiler is used with. */
  datatype Table = Foo | Bike | Color | Road | CycleLane | BikeTrip | Test

  /** The column names, as the schemas declare them. */
  datatype Field = Id | Name | Bar | OwnerId | ColorId | RoadId | BikeId | NumberField | TextField | BoolField

  /** A column, qualified by its table. */
  datatype Column = Column(table: Table, field: Field)

  datatype Value = IntV(i: int) | TextV(s: string) | BoolV(b: bool)

  /**
   * One row of a query source. A column the map does not hold is NULL, as
   * every column of the absent side of an outer join is.
   */
  type Row = map<Column, Value>

  datatype CmpOp = Eq | Ne | Gt | Lt

  /** A compiled predicate. */
  datatype Pred =
    | Cmp(col: Column, op: CmpOp, operand: Value)
    | Like(col: Column, pattern: string)
    | EqAny(col: Column, values: seq<Value>)
    | IsNull(col: Column)
    | IsNotNull(col: Column)
    | PAnd(left: Pred, right: Pred)
    | POr(left: Pred, right: Pred)

  /**
   * `x op v` on two non-NULL values. Ordering comparisons are only built
   * from numeric filters against integer columns.
   */
  predicate Compare(op: CmpOp, x: Value, v: Value) {
    match op
    case Eq => x == v
    case Ne => x != v
    case Gt => x.IntV? && v.IntV? && x.i > v.i
    case Lt => x.IntV? && v.IntV? && x.i < v.i
  }

  /** The columns a predicate mentions. */
  function Columns(p: Pred): set<Column> {
    match p
    case PAnd(a, b) => Columns(a) + Columns(b)
    case POr(a, b) => Columns(a) + Columns(b)
    case _ => {p.col}
  }

  /**
   * The value of a predicate on a row. A comparison, LIKE or IN against a
   * NULL column is Unknown; IN over an empty list is False whatever the
   * column holds; IS NULL and IS NOT NULL are always definite.
   */
  function Eval(p: Pred, row: Row): Truth {
    match p
    case Cmp(c, op, v) =>
      if c in row then FromBool(Compare(op, row[c], v)) else Unknown
    case Like(c, pattern) =>
      if c in row then FromBool(row[c].TextV? && LikePattern.Matches(pattern, row[c].s)) else Unknown
    case EqAny(c, vs) =>
      if vs == [] then False
      else if c in row then FromBool(row[c] in vs)
      else Unknown
    case IsNull(c) => FromBool(c !in row)
    case IsNotNull(c) => FromBool(c in row)
    case PAnd(a, b) => And3(Eval(a, row), Eval(b, row))
    case POr(a, b) => Or3(Eval(a, row), Eval(b, row))
  }

  /**
   * Over a row where every column the predicate mentions is present (the
   * NOT NULL columns of a single table or an inner join), a predicate is
   * plain two-valued: it never evaluates to Unknown.
   */
  lemma {:induction false} TwoValued(p: Pred, row: Row)
    requires Columns(p) <= row.Keys
    ensures Eval(p, row) != Unknown
  {
    match p
    case PAnd(a, b) =>
      TwoValued(a, row);
      TwoValued(b, row);
    case POr(a, b) =>
      TwoValued(a, row);
      TwoValued(b, row);
    case _ =>
  }
}
