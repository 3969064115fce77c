/**
 * The schema `bike LEFT JOIN color`: string conditions on the bike's name
 * and on its colour's name, compiled into the nullable-boolean domain
 * because a bike may have no colour row.
 */
module BikeSchema {

  import opened Options
  import opened Kleene
  import opened Predicates
  import opened Query
  import opened Filters
  import opened Compiler

  /** The leaf variants of this schema's conditions. */
  datatype Leaf = name(filter: StringFilter) | color(filter: StringFilter)

  type Condition = Compiler.Condition<Leaf>

  const BikeIdCol := Column(Table.Bike, Id)
  const BikeNameCol := Column(Table.Bike, Name)
  const BikeOwnerIdCol := Column(Table.Bike, OwnerId)
  const BikeColorIdCol := Column(Table.Bike, ColorId)
  const ColorIdCol := Column(Table.Color, Id)
  const ColorNameCol := Column(Table.Color, Name)

  /** `name(f)` filters `bike.name`; `color(f)` filters `color.name`. */
  function LeafPred(l: Leaf): (p: Pred)
    ensures Columns(p) == {if l.name? then BikeNameCol else ColorNameCol}
    ensures forall row :: TextOrNull(row, if l.name? then BikeNameCol else ColorNameCol) ==>
              Eval(p, row) == StringMeaning(l.filter, TextAt(row, if l.name? then BikeNameCol else ColorNameCol))
  {
    var col := if l.name? then BikeNameCol else ColorNameCol;
    forall row | TextOrNull(row, col) ensures Eval(StringFilterPred(l.filter, col), row) == StringMeaning(l.filter, TextAt(row, col)) {
      StringFilterSound(l.filter, col, row);
    }
    StringFilterPred(l.filter, col)
  }

  predicate TextOrNull(row: Row, col: Column) {
    col in row ==> row[col].TextV?
  }

  /** `Condition::to_boxed_condition` for this schema. */
  function ToBoxedCondition(c: Condition): (r: Option<Pred>)
    ensures c.Leaf? ==> r == Some(LeafPred(c.leaf))
    ensures r.None? <==> !HasLeaf(c)
    ensures r.Some? ==> forall row :: Eval(r.value, row) == Denote(c, LeafPred, row)
  {
    CompileNoneIffNoLeaf(c, LeafPred);
    forall row ensures Compile(c, LeafPred).Some? ==> Eval(Compile(c, LeafPred).value, row) == Denote(c, LeafPred, row) {
      CompileSound(c, LeafPred, row);
    }
    Compile(c, LeafPred)
  }

  /** `create_filter` for this schema. */
  function CreateFilter(cs: seq<Condition>, mode: AndOr): (r: Option<Pred>)
    ensures r.None? <==> !AnyLeaf(cs)
    ensures r.Some? ==> forall row :: Eval(r.value, row) == Verdict(mode, LiveDenotes(cs, LeafPred, row))
  {
    CreateFilterNoneIffNoLeaf(cs, mode, LeafPred);
    forall row ensures Compiler.CreateFilter(cs, mode, LeafPred).Some? ==>
        Eval(Compiler.CreateFilter(cs, mode, LeafPred).value, row) == Verdict(mode, LiveDenotes(cs, LeafPred, row)) {
      CreateFilterSound(cs, mode, LeafPred, row);
    }
    Compiler.CreateFilter(cs, mode, LeafPred)
  }

  datatype BikeRecord = BikeRecord(id: string, name: string, ownerId: string, colorId: string)
  datatype ColorRecord = ColorRecord(id: string, name: string)

  function BikeRow(b: BikeRecord): (row: Row)
    ensures row.Keys == {BikeIdCol, BikeNameCol, BikeOwnerIdCol, BikeColorIdCol}
  {
    map[BikeIdCol := TextV(b.id), BikeNameCol := TextV(b.name), BikeOwnerIdCol := TextV(b.ownerId), BikeColorIdCol := TextV(b.colorId)]
  }

  function ColorRow(c: ColorRecord): (row: Row)
    ensures row.Keys == {ColorIdCol, ColorNameCol}
  {
    map[ColorIdCol := TextV(c.id), ColorNameCol := TextV(c.name)]
  }

  function BikeRows(bikes: seq<BikeRecord>): (rows: seq<Row>)
    ensures |rows| == |bikes|
    ensures forall i :: 0 <= i < |bikes| ==> rows[i] == BikeRow(bikes[i])
  {
    if bikes == [] then [] else [BikeRow(bikes[0])] + BikeRows(bikes[1..])
  }

  function ColorRows(colors: seq<ColorRecord>): (rows: seq<Row>)
    ensures |rows| == |colors|
    ensures forall i :: 0 <= i < |colors| ==> rows[i] == ColorRow(colors[i])
  {
    if colors == [] then [] else [ColorRow(colors[0])] + ColorRows(colors[1..])
  }

  /** `bike.left_join(color)`, joined on `bike.color_id = color.id`: no bike is lost. */
  function JoinedSource(bikes: seq<BikeRecord>, colors: seq<ColorRecord>): (r: seq<Row>)
    ensures |r| >= |bikes|
  {
    LeftJoin(BikeRows(bikes), ColorRows(colors), BikeColorIdCol, ColorIdCol)
  }

  /**
   * `create_filtered_query`: the left join, filtered by the top-level list
   * combined with AND when it compiles to a predicate, unfiltered when it
   * does not. The rows it loads are exactly the joined rows on which the
   * conditions, read as one AND group, are True.
   */
  function CreateFilteredQuery(bikes: seq<BikeRecord>, colors: seq<ColorRecord>, cs: seq<Condition>): (q: Query)
    ensures q.source == JoinedSource(bikes, colors)
    ensures !AnyLeaf(cs) ==> q.where.None? && Load(q) == JoinedSource(bikes, colors)
    ensures forall row :: row in Load(q) <==>
              row in JoinedSource(bikes, colors) && (AnyLeaf(cs) ==> Denote(Condition.And(cs), LeafPred, row) == Truth.True)
  {
    ApplyIfPresent(Query(JoinedSource(bikes, colors), None), CreateFilter(cs, AndOr.And))
  }

  /** A bike and a colour match exactly when the colour's id is the bike's `color_id`. */
  lemma ColorMatch(b: BikeRecord, c: ColorRecord)
    ensures JoinMatch(BikeRow(b), ColorRow(c), BikeColorIdCol, ColorIdCol) <==> c.id == b.colorId
  {
  }

  /** A bike whose `color_id` names no colour matches no colour row. */
  lemma ColorlessUnmatched(colors: seq<ColorRecord>, b: BikeRecord)
    requires forall c :: c in colors ==> c.id != b.colorId
    ensures Unmatched(BikeRow(b), ColorRows(colors), BikeColorIdCol, ColorIdCol)
  {
    forall r | r in ColorRows(colors) ensures !JoinMatch(BikeRow(b), r, BikeColorIdCol, ColorIdCol) {
      ColorRowsMember(colors, r);
      var c :| c in colors && r == ColorRow(c);
      ColorMatch(b, c);
    }
  }

  /** Such a bike is kept by the left join, alone, with every colour column NULL. */
  lemma ColorlessBikeKept(bikes: seq<BikeRecord>, colors: seq<ColorRecord>, b: BikeRecord)
    requires b in bikes
    requires forall c :: c in colors ==> c.id != b.colorId
    ensures BikeRow(b) in JoinedSource(bikes, colors)
    ensures ColorNameCol !in BikeRow(b)
  {
    assert BikeRow(b) in BikeRows(bikes) by {
      BikeRowsMember(bikes, BikeRow(b));
    }
    ColorlessUnmatched(colors, b);
    LeftJoinMember(BikeRows(bikes), ColorRows(colors), BikeColorIdCol, ColorIdCol, BikeRow(b));
  }

  /**
   * A bike whose colour has no row is still in the join, with every colour
   * column NULL; a `color(...)` value comparison on it is Unknown, so
   * filtering by that condition drops it.
   */
  /**
   * A bike with no colour survives the left join, but no `color(f)` filter
   * is True on it, so filtering by one drops it (`IN ()` included, which is
   * False there rather than Unknown).
   */
  lemma ColorlessBikeDropped(bikes: seq<BikeRecord>, colors: seq<ColorRecord>, b: BikeRecord, f: StringFilter)
    requires b in bikes
    requires forall c :: c in colors ==> c.id != b.colorId
    ensures BikeRow(b) in JoinedSource(bikes, colors)
    ensures Eval(LeafPred(color(f)), BikeRow(b)) != Truth.True
    ensures BikeRow(b) !in Load(CreateFilteredQuery(bikes, colors, [Leaf(color(f))]))
  {
    ColorlessBikeKept(bikes, colors, b);
    StringFilterSound(f, ColorNameCol, BikeRow(b));
    assert LiveDenotes([Leaf(color(f))], LeafPred, BikeRow(b)) == [Eval(LeafPred(color(f)), BikeRow(b))] by {
      assert [Leaf(color(f))][1..] == [];
    }
  }

  /** On a bike with no colour every `color(f)` value filter is Unknown, except `IN ()`. */
  lemma ColorlessBikeUnknown(b: BikeRecord, f: StringFilter)
    requires !(f.In? && f.values == [])
    ensures Eval(LeafPred(color(f)), BikeRow(b)) == Unknown
  {
    AbsentIsUnknown(ColorNameCol, BikeRow(b), NumberFilter.Equal(0), f);
  }

  lemma BikeRowsMember(bikes: seq<BikeRecord>, row: Row)
    ensures row in BikeRows(bikes) <==> exists b :: b in bikes && row == BikeRow(b)
  {
    if row in BikeRows(bikes) {
      var i :| 0 <= i < |bikes| && BikeRows(bikes)[i] == row;
      assert bikes[i] in bikes;
    }
  }

  lemma ColorRowsMember(colors: seq<ColorRecord>, row: Row)
    ensures row in ColorRows(colors) <==> exists c :: c in colors && row == ColorRow(c)
  {
    if row in ColorRows(colors) {
      var i :| 0 <= i < |colors| && ColorRows(colors)[i] == row;
      assert colors[i] in colors;
    }
  }

  /**
   * The left join pairs each bike with every colour whose id is the bike's
   * `color_id`, and keeps, alone, each bike that has no such colour.
   */
  lemma JoinedRowShape(bikes: seq<BikeRecord>, colors: seq<ColorRecord>, row: Row)
    ensures row in JoinedSource(bikes, colors) <==>
              (exists b, c :: b in bikes && c in colors && c.id == b.colorId && row == BikeRow(b) + ColorRow(c))
              || (exists b :: b in bikes && row == BikeRow(b) && forall c :: c in colors ==> c.id != b.colorId)
  {
    var ls, rs := BikeRows(bikes), ColorRows(colors);
    LeftJoinMember(ls, rs, BikeColorIdCol, ColorIdCol, row);
    BikeRowsMember(bikes, row);
    forall l | l in ls ensures exists b :: b in bikes && l == BikeRow(b) {
      BikeRowsMember(bikes, l);
    }
    forall b | b in bikes ensures BikeRow(b) in ls {
      BikeRowsMember(bikes, BikeRow(b));
    }
    forall r | r in rs ensures exists c :: c in colors && r == ColorRow(c) {
      ColorRowsMember(colors, r);
    }
    forall c | c in colors ensures ColorRow(c) in rs {
      ColorRowsMember(colors, ColorRow(c));
    }
    forall b, c ensures JoinMatch(BikeRow(b), ColorRow(c), BikeColorIdCol, ColorIdCol) <==> c.id == b.colorId {
      ColorMatch(b, c);
    }
  }

  /** The colours, in order, whose id is the bike's `color_id`. */
  function ColorsOf(b: BikeRecord, colors: seq<ColorRecord>): seq<ColorRecord> {
    if colors == [] then []
    else (if colors[0].id == b.colorId then [colors[0]] else []) + ColorsOf(b, colors[1..])
  }

  lemma {:induction false} MatchingColors(b: BikeRecord, colors: seq<ColorRecord>)
    ensures Matching(BikeRow(b), ColorRows(colors), BikeColorIdCol, ColorIdCol) == ColorRows(ColorsOf(b, colors))
  {
    if colors != [] {
      MatchingColors(b, colors[1..]);
      assert ColorRows(colors)[1..] == ColorRows(colors[1..]);
      var head := if colors[0].id == b.colorId then [colors[0]] else [];
      assert ColorRows(head + ColorsOf(b, colors[1..])) == ColorRows(head) + ColorRows(ColorsOf(b, colors[1..]));
    }
  }

  // The fixture of the repository's test: bikes c1 (orange), c2 (purple) and m1 (grey).

  const C1 := BikeRecord("c1", "c1", "craig", "orange")
  const C2 := BikeRecord("c2", "c2", "craig", "purple")
  const M1 := BikeRecord("m1", "m1", "mark", "grey")
  const Orange := ColorRecord("orange", "orange")
  const Purple := ColorRecord("purple", "purple")
  const Grey := ColorRecord("grey", "grey")

  lemma FixtureColorNamesDistinct()
    ensures "orange" != "purple" && "orange" != "grey" && "purple" != "grey"
  {
    assert "orange"[0] != "purple"[0] && "orange"[0] != "grey"[0] && "purple"[0] != "grey"[0];
  }

  lemma FixtureColorsOf()
    ensures ColorsOf(C1, [Orange, Purple, Grey]) == [Orange]
    ensures ColorsOf(C2, [Orange, Purple, Grey]) == [Purple]
    ensures ColorsOf(M1, [Orange, Purple, Grey]) == [Grey]
  {
    FixtureColorNamesDistinct();
    var colors := [Orange, Purple, Grey];
    assert colors[1..] == [Purple, Grey] && colors[2..] == [Grey] && colors[3..] == [];
    assert C1.colorId == "orange" && C2.colorId == "purple" && M1.colorId == "grey";
    assert Orange.id == "orange" && Purple.id == "purple" && Grey.id == "grey";
    assert ColorsOf(C1, colors[2..]) == [];
    assert ColorsOf(C2, colors[2..]) == [];
    assert ColorsOf(M1, colors[2..]) == [Grey];
    assert ColorsOf(C1, colors[1..]) == [];
    assert ColorsOf(C2, colors[1..]) == [Purple];
    assert ColorsOf(M1, colors[1..]) == [Grey];
  }

  /** A bike with exactly one colour joins into one row: the bike with that colour. */
  lemma JoinOneBike(b: BikeRecord, colors: seq<ColorRecord>, c: ColorRecord)
    requires ColorsOf(b, colors) == [c]
    ensures LeftJoin([BikeRow(b)], ColorRows(colors), BikeColorIdCol, ColorIdCol) == [BikeRow(b) + ColorRow(c)]
  {
    MatchingColors(b, colors);
    assert ColorRows([c]) == [ColorRow(c)];
    assert [BikeRow(b)][1..] == [];
  }

  /** Three bikes with one colour each join, in order, into three rows. */
  lemma JoinThreeBikes(b1: BikeRecord, b2: BikeRecord, b3: BikeRecord, colors: seq<ColorRecord>,
                       c1: ColorRecord, c2: ColorRecord, c3: ColorRecord)
    requires ColorsOf(b1, colors) == [c1] && ColorsOf(b2, colors) == [c2] && ColorsOf(b3, colors) == [c3]
    ensures JoinedSource([b1, b2, b3], colors) == [BikeRow(b1) + ColorRow(c1), BikeRow(b2) + ColorRow(c2), BikeRow(b3) + ColorRow(c3)]
  {
    var rs := ColorRows(colors);
    var x1, x2, x3 := BikeRow(b1), BikeRow(b2), BikeRow(b3);
    assert BikeRows([b1, b2, b3]) == [x1] + [x2] + [x3];
    assert LeftJoin([x1] + [x2], rs, BikeColorIdCol, ColorIdCol) == [x1 + ColorRow(c1), x2 + ColorRow(c2)] by {
      JoinOneBike(b1, colors, c1);
      JoinOneBike(b2, colors, c2);
      LeftJoinAppend([x1], [x2], rs, BikeColorIdCol, ColorIdCol);
    }
    JoinOneBike(b3, colors, c3);
    LeftJoinAppend([x1] + [x2], [x3], rs, BikeColorIdCol, ColorIdCol);
  }

  lemma FixtureJoin()
    ensures JoinedSource([C1, C2, M1], [Orange, Purple, Grey])
              == [BikeRow(C1) + ColorRow(Orange), BikeRow(C2) + ColorRow(Purple), BikeRow(M1) + ColorRow(Grey)]
  {
    FixtureColorsOf();
    JoinThreeBikes(C1, C2, M1, [Orange, Purple, Grey], Orange, Purple, Grey);
  }

  /** On a bike joined with a colour, `color.name` holds the colour's name. */
  lemma ColorNameOnJoined(b: BikeRecord, c: ColorRecord)
    ensures ColorNameCol in BikeRow(b) + ColorRow(c) && (BikeRow(b) + ColorRow(c))[ColorNameCol] == TextV(c.name)
  {
  }

  /** `WHERE p` over three rows of which the first two satisfy `p` keeps those two. */
  lemma WhereKeepsFirstTwo(r1: Row, r2: Row, r3: Row, p: Pred)
    requires Eval(p, r1) == Truth.True && Eval(p, r2) == Truth.True && Eval(p, r3) != Truth.True
    ensures Where([r1, r2, r3], p) == [r1, r2]
  {
    assert Where([r1], p) == [r1] by { assert [r1][1..] == []; }
    assert Where([r2], p) == [r2] by { assert [r2][1..] == []; }
    assert Where([r3], p) == [] by { assert [r3][1..] == []; }
    assert [r1, r2, r3] == [r1] + [r2] + [r3];
    WhereAppend([r1] + [r2], [r3], p);
    WhereAppend([r1], [r2], p);
  }

  /** On the fixture's joined rows, `color IN ('orange', 'purple')` holds of c1 and c2 and fails on m1. */
  lemma ColorInVerdicts(p: Pred)
    requires p == LeafPred(color(In(["orange", "purple"])))
    ensures Eval(p, BikeRow(C1) + ColorRow(Orange)) == Truth.True
    ensures Eval(p, BikeRow(C2) + ColorRow(Purple)) == Truth.True
    ensures Eval(p, BikeRow(M1) + ColorRow(Grey)) == Truth.False
  {
    assert "grey" != "orange" && "grey" != "purple" by {
      assert "grey"[0] != "orange"[0] && "grey"[0] != "purple"[0];
    }
    ColorNameOnJoined(C1, Orange);
    ColorNameOnJoined(C2, Purple);
    ColorNameOnJoined(M1, Grey);
    InIsMembership(["orange", "purple"], ColorNameCol, BikeRow(C1) + ColorRow(Orange), "orange");
    InIsMembership(["orange", "purple"], ColorNameCol, BikeRow(C2) + ColorRow(Purple), "purple");
    InIsMembership(["orange", "purple"], ColorNameCol, BikeRow(M1) + ColorRow(Grey), "grey");
  }

  /** `color(In(["orange", "purple"]))` keeps c1 and c2 with their colours, in order. */
  lemma ColorInScenario()
    ensures Load(CreateFilteredQuery([C1, C2, M1], [Orange, Purple, Grey], [Leaf(color(In(["orange", "purple"])))]))
              == [BikeRow(C1) + ColorRow(Orange), BikeRow(C2) + ColorRow(Purple)]
  {
    FixtureJoin();
    var leaf := Leaf(color(In(["orange", "purple"])));
    LoneChild(leaf, AndOr.And, LeafPred);
    var p := LeafPred(leaf.leaf);
    assert CreateFilter([leaf], AndOr.And) == Some(p);
    ColorInVerdicts(p);
    WhereKeepsFirstTwo(BikeRow(C1) + ColorRow(Orange), BikeRow(C2) + ColorRow(Purple), BikeRow(M1) + ColorRow(Grey), p);
  }
}
