/**
 * The schema `bike_trip INNER JOIN bike LEFT JOIN cycle_lane ON
 * cycle_lane.road_id = bike_trip.road_id`: string conditions on the bike's
 * name, the cycle lane's name and the trip's name, compiled into the
 * nullable-boolean domain because a trip's road may have no cycle lane.
 */
module BikeTripSchema {

  import opened Options
  import opened Kleene
  import opened Predicates
  import opened Query
  import opened Filters
  import opened Compiler
  import opened BikeSchema

  /** The leaf variants of this schema's conditions. */
  datatype Leaf = bike(filter: StringFilter) | cycle_lane(filter: StringFilter) | bike_trip(filter: StringFilter)

  type Condition = Compiler.Condition<Leaf>

  const TripIdCol := Column(BikeTrip, Id)
  const TripNameCol := Column(BikeTrip, Name)
  const TripBikeIdCol := Column(BikeTrip, BikeId)
  const TripRoadIdCol := Column(BikeTrip, RoadId)
  const LaneIdCol := Column(CycleLane, Id)
  const LaneNameCol := Column(CycleLane, Name)
  const LaneRoadIdCol := Column(CycleLane, RoadId)

  /** The column a leaf filters: `bike.name`, `cycle_lane.name` or `bike_trip.name`. */
  function LeafColumn(l: Leaf): Column {
    match l
    case bike(_) => BikeNameCol
    case cycle_lane(_) => LaneNameCol
    case bike_trip(_) => TripNameCol
  }

  /** Each leaf is its string filter applied to its own table's `name`. */
  function LeafPred(l: Leaf): (p: Pred)
    ensures Columns(p) == {LeafColumn(l)}
    ensures forall row :: TextOrNull(row, LeafColumn(l)) ==>
              Eval(p, row) == StringMeaning(l.filter, TextAt(row, LeafColumn(l)))
  {
    forall row | TextOrNull(row, LeafColumn(l))
      ensures Eval(StringFilterPred(l.filter, LeafColumn(l)), row) == StringMeaning(l.filter, TextAt(row, LeafColumn(l)))
    {
      StringFilterSound(l.filter, LeafColumn(l), row);
    }
    StringFilterPred(l.filter, LeafColumn(l))
  }

  /** `Condition::to_boxed_condition` for this schema. */
  function ToBoxedCondition(c: Condition): (r: Option<Pred>)
    ensures c.Leaf? ==> r == Some(LeafPred(c.leaf))
    ensures r.None? <==> !HasLeaf(c)
    ensures r.Some? ==> forall row :: Eval(r.value, row) == Denote(c, LeafPred, row)
  {
    CompileNoneIffNoLeaf(c, LeafPred);
    forall row ensures Compile(c, LeafPred).Some? ==> Eval(Compile(c, LeafPred).value, row) == Denote(c, LeafPred, row) {
      CompileSound(c, LeafPred, row);
    }
    Compile(c, LeafPred)
  }

  /** `create_filter` for this schema. */
  function CreateFilter(cs: seq<Condition>, mode: AndOr): (r: Option<Pred>)
    ensures r.None? <==> !AnyLeaf(cs)
    ensures r.Some? ==> forall row :: Eval(r.value, row) == Verdict(mode, LiveDenotes(cs, LeafPred, row))
  {
    CreateFilterNoneIffNoLeaf(cs, mode, LeafPred);
    forall row ensures Compiler.CreateFilter(cs, mode, LeafPred).Some? ==>
        Eval(Compiler.CreateFilter(cs, mode, LeafPred).value, row) == Verdict(mode, LiveDenotes(cs, LeafPred, row)) {
      CreateFilterSound(cs, mode, LeafPred, row);
    }
    Compiler.CreateFilter(cs, mode, LeafPred)
  }

  datatype TripRecord = TripRecord(id: string, name: string, bikeId: string, roadId: string)
  datatype LaneRecord = LaneRecord(id: string, name: string, roadId: string)

  function TripRow(t: TripRecord): (row: Row)
    ensures row.Keys == {TripIdCol, TripNameCol, TripBikeIdCol, TripRoadIdCol}
  {
    map[TripIdCol := TextV(t.id), TripNameCol := TextV(t.name), TripBikeIdCol := TextV(t.bikeId), TripRoadIdCol := TextV(t.roadId)]
  }

  function LaneRow(c: LaneRecord): (row: Row)
    ensures row.Keys == {LaneIdCol, LaneNameCol, LaneRoadIdCol}
  {
    map[LaneIdCol := TextV(c.id), LaneNameCol := TextV(c.name), LaneRoadIdCol := TextV(c.roadId)]
  }

  function TripRows(trips: seq<TripRecord>): (rows: seq<Row>)
    ensures |rows| == |trips|
    ensures forall i :: 0 <= i < |trips| ==> rows[i] == TripRow(trips[i])
  {
    if trips == [] then [] else [TripRow(trips[0])] + TripRows(trips[1..])
  }

  function LaneRows(lanes: seq<LaneRecord>): (rows: seq<Row>)
    ensures |rows| == |lanes|
    ensures forall i :: 0 <= i < |lanes| ==> rows[i] == LaneRow(lanes[i])
  {
    if lanes == [] then [] else [LaneRow(lanes[0])] + LaneRows(lanes[1..])
  }

  /** `bike_trip.inner_join(bike)`, on `bike_trip.bike_id = bike.id`: at most one row per trip and bike. */
  function TripsWithBikes(trips: seq<TripRecord>, bikes: seq<BikeRecord>): (r: seq<Row>)
    ensures |r| <= |trips| * |bikes|
  {
    InnerJoin(TripRows(trips), BikeRows(bikes), TripBikeIdCol, BikeIdCol)
  }

  /**
   * `.left_join(cycle_lane.on(cycle_lane.road_id.eq(bike_trip.road_id)))` on
   * top of the inner join: no trip-with-bike row is lost.
   */
  function JoinedSource(trips: seq<TripRecord>, bikes: seq<BikeRecord>, lanes: seq<LaneRecord>): (r: seq<Row>)
    ensures |r| >= |TripsWithBikes(trips, bikes)|
  {
    LeftJoin(TripsWithBikes(trips, bikes), LaneRows(lanes), TripRoadIdCol, LaneRoadIdCol)
  }

  /**
   * `create_filtered_query`: the joined source, filtered by the top-level
   * list combined with AND when it compiles to a predicate, unfiltered when
   * it does not.
   */
  function CreateFilteredQuery(trips: seq<TripRecord>, bikes: seq<BikeRecord>, lanes: seq<LaneRecord>, cs: seq<Condition>): (q: Query)
    ensures q.source == JoinedSource(trips, bikes, lanes)
    ensures !AnyLeaf(cs) ==> q.where.None? && Load(q) == JoinedSource(trips, bikes, lanes)
    ensures forall row :: row in Load(q) <==>
              row in JoinedSource(trips, bikes, lanes) && (AnyLeaf(cs) ==> Denote(Condition.And(cs), LeafPred, row) == Truth.True)
  {
    ApplyIfPresent(Query(JoinedSource(trips, bikes, lanes), None), CreateFilter(cs, AndOr.And))
  }

  lemma TripRowsMember(trips: seq<TripRecord>, row: Row)
    ensures row in TripRows(trips) <==> exists t :: t in trips && row == TripRow(t)
  {
    if row in TripRows(trips) {
      var i :| 0 <= i < |trips| && TripRows(trips)[i] == row;
      assert trips[i] in trips;
    }
  }

  lemma LaneRowsMember(lanes: seq<LaneRecord>, row: Row)
    ensures row in LaneRows(lanes) <==> exists c :: c in lanes && row == LaneRow(c)
  {
    if row in LaneRows(lanes) {
      var i :| 0 <= i < |lanes| && LaneRows(lanes)[i] == row;
      assert lanes[i] in lanes;
    }
  }

  /** The inner join pairs each trip with each bike whose id is the trip's `bike_id`, and with nothing else. */
  lemma TripsWithBikesMember(trips: seq<TripRecord>, bikes: seq<BikeRecord>, row: Row)
    ensures row in TripsWithBikes(trips, bikes) <==>
              exists t, b :: t in trips && b in bikes && t.bikeId == b.id && row == TripRow(t) + BikeRow(b)
  {
    var ls, rs := TripRows(trips), BikeRows(bikes);
    InnerJoinMember(ls, rs, TripBikeIdCol, BikeIdCol, row);
    forall t: TripRecord, b: BikeRecord
      ensures JoinMatch(TripRow(t), BikeRow(b), TripBikeIdCol, BikeIdCol) <==> t.bikeId == b.id
    {
    }
    forall l, r | l in ls && r in rs
      ensures exists t, b :: t in trips && b in bikes && l == TripRow(t) && r == BikeRow(b)
    {
      TripRowsMember(trips, l);
      BikeRowsMember(bikes, r);
    }
    forall t, b | t in trips && b in bikes ensures TripRow(t) in ls && BikeRow(b) in rs {
      TripRowsMember(trips, TripRow(t));
      BikeRowsMember(bikes, BikeRow(b));
    }
  }

  /** A trip and its bike match a cycle lane exactly when the lane is on the trip's road. */
  lemma LaneMatch(t: TripRecord, b: BikeRecord, c: LaneRecord)
    ensures JoinMatch(TripRow(t) + BikeRow(b), LaneRow(c), TripRoadIdCol, LaneRoadIdCol) <==> c.roadId == t.roadId
  {
    assert TripRoadIdCol !in BikeRow(b);
  }

  /**
   * The joined source pairs each trip with its bike, then with every cycle
   * lane on the trip's road, or with no lane (every lane column NULL) when
   * the road has none; it holds no other row.
   */
  lemma JoinedRowShape(trips: seq<TripRecord>, bikes: seq<BikeRecord>, lanes: seq<LaneRecord>, row: Row)
    ensures row in JoinedSource(trips, bikes, lanes) <==>
              exists t, b :: t in trips && b in bikes && t.bikeId == b.id &&
                ((exists c :: c in lanes && c.roadId == t.roadId && row == TripRow(t) + BikeRow(b) + LaneRow(c))
                 || (row == TripRow(t) + BikeRow(b) && forall c :: c in lanes ==> c.roadId != t.roadId))
  {
    var ls, rs := TripsWithBikes(trips, bikes), LaneRows(lanes);
    LeftJoinMember(ls, rs, TripRoadIdCol, LaneRoadIdCol, row);
    TripsWithBikesMember(trips, bikes, row);
    forall l | l in ls
      ensures exists t, b :: t in trips && b in bikes && t.bikeId == b.id && l == TripRow(t) + BikeRow(b)
    {
      TripsWithBikesMember(trips, bikes, l);
    }
    forall t, b | t in trips && b in bikes && t.bikeId == b.id ensures TripRow(t) + BikeRow(b) in ls {
      TripsWithBikesMember(trips, bikes, TripRow(t) + BikeRow(b));
    }
    forall r | r in rs ensures exists c :: c in lanes && r == LaneRow(c) {
      LaneRowsMember(lanes, r);
    }
    forall c | c in lanes ensures LaneRow(c) in rs {
      LaneRowsMember(lanes, LaneRow(c));
    }
    forall t, b, c ensures JoinMatch(TripRow(t) + BikeRow(b), LaneRow(c), TripRoadIdCol, LaneRoadIdCol) <==> c.roadId == t.roadId {
      LaneMatch(t, b, c);
    }
  }

  /**
   * `bike` and `bike_trip` leaves are never Unknown on a joined row: their
   * columns come from the inner-joined tables and are always present.
   */
  lemma InnerSideNeverUnknown(trips: seq<TripRecord>, bikes: seq<BikeRecord>, lanes: seq<LaneRecord>, row: Row, f: StringFilter)
    requires row in JoinedSource(trips, bikes, lanes)
    ensures Eval(LeafPred(bike(f)), row) != Unknown
    ensures Eval(LeafPred(bike_trip(f)), row) != Unknown
  {
    var ls, rs := TripRows(trips), BikeRows(bikes);
    forall l | l in ls ensures {TripNameCol} <= l.Keys {
      TripRowsMember(trips, l);
    }
    forall r | r in rs ensures {BikeNameCol} <= r.Keys {
      BikeRowsMember(bikes, r);
    }
    InnerJoinColumns(ls, rs, TripBikeIdCol, BikeIdCol, {TripNameCol}, {BikeNameCol});
    LeftJoinColumns(TripsWithBikes(trips, bikes), LaneRows(lanes), TripRoadIdCol, LaneRoadIdCol, {TripNameCol, BikeNameCol});
    assert BikeNameCol in row && TripNameCol in row;
  }

  /** A trip with its bike whose road has no cycle lane matches no lane row. */
  lemma LanelessUnmatched(lanes: seq<LaneRecord>, t: TripRecord, b: BikeRecord)
    requires forall c :: c in lanes ==> c.roadId != t.roadId
    ensures Unmatched(TripRow(t) + BikeRow(b), LaneRows(lanes), TripRoadIdCol, LaneRoadIdCol)
  {
    forall r | r in LaneRows(lanes) ensures !JoinMatch(TripRow(t) + BikeRow(b), r, TripRoadIdCol, LaneRoadIdCol) {
      LaneRowsMember(lanes, r);
      var c :| c in lanes && r == LaneRow(c);
      LaneMatch(t, b, c);
    }
  }

  /** A trip with its bike whose road has no cycle lane is kept by the left join, alone. */
  lemma LanelessTripKept(trips: seq<TripRecord>, bikes: seq<BikeRecord>, lanes: seq<LaneRecord>, t: TripRecord, b: BikeRecord)
    requires t in trips && b in bikes && t.bikeId == b.id
    requires forall c :: c in lanes ==> c.roadId != t.roadId
    ensures TripRow(t) + BikeRow(b) in JoinedSource(trips, bikes, lanes)
    ensures LaneNameCol !in TripRow(t) + BikeRow(b)
  {
    TripWithBikeJoined(trips, bikes, t, b);
    LanelessUnmatched(lanes, t, b);
    LeftJoinMember(TripsWithBikes(trips, bikes), LaneRows(lanes), TripRoadIdCol, LaneRoadIdCol, TripRow(t) + BikeRow(b));
  }

  /** A trip and the bike its `bike_id` names are paired by the inner join. */
  lemma TripWithBikeJoined(trips: seq<TripRecord>, bikes: seq<BikeRecord>, t: TripRecord, b: BikeRecord)
    requires t in trips && b in bikes && t.bikeId == b.id
    ensures TripRow(t) + BikeRow(b) in TripsWithBikes(trips, bikes)
  {
    var ls, rs := TripRows(trips), BikeRows(bikes);
    TripRowsMember(trips, TripRow(t));
    BikeRowsMember(bikes, BikeRow(b));
    assert JoinMatch(TripRow(t), BikeRow(b), TripBikeIdCol, BikeIdCol);
    InnerJoinMember(ls, rs, TripBikeIdCol, BikeIdCol, TripRow(t) + BikeRow(b));
  }

  /**
   * On such a trip every lane column is NULL: a `cycle_lane(...)` value
   * comparison is Unknown, so filtering by that condition drops the row.
   */
  /**
   * A trip whose road has no lane survives the joins, but no
   * `cycle_lane(f)` filter is True on it, so filtering by one drops it
   * (`IN ()` included, which is False there rather than Unknown).
   */
  lemma LanelessTripDropped(trips: seq<TripRecord>, bikes: seq<BikeRecord>, lanes: seq<LaneRecord>,
                            t: TripRecord, b: BikeRecord, f: StringFilter)
    requires t in trips && b in bikes && t.bikeId == b.id
    requires forall c :: c in lanes ==> c.roadId != t.roadId
    ensures TripRow(t) + BikeRow(b) in JoinedSource(trips, bikes, lanes)
    ensures Eval(LeafPred(cycle_lane(f)), TripRow(t) + BikeRow(b)) != Truth.True
    ensures TripRow(t) + BikeRow(b) !in Load(CreateFilteredQuery(trips, bikes, lanes, [Leaf(cycle_lane(f))]))
  {
    var row := TripRow(t) + BikeRow(b);
    LanelessTripKept(trips, bikes, lanes, t, b);
    StringFilterSound(f, LaneNameCol, row);
    assert LiveDenotes([Leaf(cycle_lane(f))], LeafPred, row) == [Eval(LeafPred(cycle_lane(f)), row)] by {
      assert [Leaf(cycle_lane(f))][1..] == [];
    }
  }

  /** On a trip with its bike and no lane every `cycle_lane(f)` value filter is Unknown, except `IN ()`. */
  lemma LanelessTripUnknown(t: TripRecord, b: BikeRecord, f: StringFilter)
    requires !(f.In? && f.values == [])
    ensures Eval(LeafPred(cycle_lane(f)), TripRow(t) + BikeRow(b)) == Unknown
  {
    AbsentIsUnknown(LaneNameCol, TripRow(t) + BikeRow(b), NumberFilter.Equal(0), f);
  }

  // The trips and cycle lanes of the repository's test, on top of the bikes c1, c2 and m1.

  const T1 := TripRecord("t1", "t1", "c1", "queen")
  const T2 := TripRecord("t2", "t2", "m1", "tamaki")
  const UpperQueen := LaneRecord("upper_queen_lane", "upper_queen_lane", "queen")
  const LowerQueen := LaneRecord("lower_queen_lane", "lower_queen_lane", "queen")
  const Bendy := LaneRecord("bendy", "bendy", "tamaki")
  const Flatty := LaneRecord("flatty", "flatty", "tamaki")
  const Windy := LaneRecord("windy", "windy", "tamaki")

  const FixtureTrips := [T1, T2]
  const FixtureBikes := [C1, C2, M1]
  const FixtureLanes := [UpperQueen, LowerQueen, Bendy, Flatty, Windy]

  /** On a joined row, with or without a lane, `bike.name` holds the bike's name. */
  lemma BikeNameOnJoined(t: TripRecord, b: BikeRecord, c: LaneRecord)
    ensures var row := TripRow(t) + BikeRow(b); BikeNameCol in row && row[BikeNameCol] == TextV(b.name)
    ensures var row := TripRow(t) + BikeRow(b) + LaneRow(c); BikeNameCol in row && row[BikeNameCol] == TextV(b.name)
  {
    assert BikeNameCol !in LaneRow(c);
  }

  /** A single top-level condition means what its leaf means. */
  lemma SingleLeafDenote(l: Leaf, row: Row)
    ensures Denote(Condition.And([Leaf(l)]), LeafPred, row) == Eval(LeafPred(l), row)
  {
    assert [Leaf(l)][1..] == [];
    assert LiveDenotes([Leaf(l)], LeafPred, row) == [Eval(LeafPred(l), row)];
  }

  /** The only fixture bike named m1 is m1, and the only fixture trip on it is t2. */
  lemma FixtureM1(t: TripRecord, b: BikeRecord)
    requires t in FixtureTrips && b in FixtureBikes && t.bikeId == b.id && b.name == "m1"
    ensures t == T2 && b == M1
  {
    assert "c1"[0] != "m1"[0] && "c2"[0] != "m1"[0];
  }

  /** The fixture lanes on tamaki are bendy, flatty and windy. */
  lemma FixtureTamakiLanes(c: LaneRecord)
    ensures c in FixtureLanes && c.roadId == "tamaki" <==> c == Bendy || c == Flatty || c == Windy
  {
    assert "queen"[0] != "tamaki"[0];
  }

  /** Trip t2 on bike m1 with one of the lanes bendy, flatty and windy. */
  predicate M1TripRow(row: Row) {
    row == TripRow(T2) + BikeRow(M1) + LaneRow(Bendy)
    || row == TripRow(T2) + BikeRow(M1) + LaneRow(Flatty)
    || row == TripRow(T2) + BikeRow(M1) + LaneRow(Windy)
  }

  lemma MatchedRowsAreM1Trips(row: Row)
    requires row in JoinedSource(FixtureTrips, FixtureBikes, FixtureLanes)
    requires Eval(LeafPred(bike(StringFilter.Equal("m1"))), row) == Truth.True
    ensures M1TripRow(row)
  {
    JoinedRowShape(FixtureTrips, FixtureBikes, FixtureLanes, row);
    var t, b :| t in FixtureTrips && b in FixtureBikes && t.bikeId == b.id &&
              ((exists c :: c in FixtureLanes && c.roadId == t.roadId && row == TripRow(t) + BikeRow(b) + LaneRow(c))
               || (row == TripRow(t) + BikeRow(b) && forall c :: c in FixtureLanes ==> c.roadId != t.roadId));
    BikeNameOnJoined(t, b, Bendy);
    if exists c :: c in FixtureLanes && c.roadId == t.roadId && row == TripRow(t) + BikeRow(b) + LaneRow(c) {
      var c :| c in FixtureLanes && c.roadId == t.roadId && row == TripRow(t) + BikeRow(b) + LaneRow(c);
      BikeNameOnJoined(t, b, c);
      FixtureM1(t, b);
      FixtureTamakiLanes(c);
    } else {
      FixtureM1(t, b);
      assert false;
    }
  }

  /** A trip with its bike and a lane on its road is a row of the joined source. */
  lemma TripWithLaneJoined(trips: seq<TripRecord>, bikes: seq<BikeRecord>, lanes: seq<LaneRecord>,
                           t: TripRecord, b: BikeRecord, c: LaneRecord)
    requires t in trips && b in bikes && t.bikeId == b.id
    requires c in lanes && c.roadId == t.roadId
    ensures TripRow(t) + BikeRow(b) + LaneRow(c) in JoinedSource(trips, bikes, lanes)
  {
    JoinedRowShape(trips, bikes, lanes, TripRow(t) + BikeRow(b) + LaneRow(c));
  }

  lemma M1TripsAreMatched(row: Row)
    requires M1TripRow(row)
    ensures row in JoinedSource(FixtureTrips, FixtureBikes, FixtureLanes)
    ensures Eval(LeafPred(bike(StringFilter.Equal("m1"))), row) == Truth.True
  {
    var c :| (c == Bendy || c == Flatty || c == Windy) && row == TripRow(T2) + BikeRow(M1) + LaneRow(c);
    FixtureTamakiLanes(c);
    BikeNameOnJoined(T2, M1, c);
    assert T2 in FixtureTrips && M1 in FixtureBikes;
    TripWithLaneJoined(FixtureTrips, FixtureBikes, FixtureLanes, T2, M1, c);
  }

  /**
   * `bike(Equal("m1"))` on the fixture keeps trip t2 on bike m1 with each of
   * the three lanes on its road, bendy, flatty and windy, and nothing else.
   */
  lemma BikeEqualScenario(row: Row)
    ensures row in Load(CreateFilteredQuery(FixtureTrips, FixtureBikes, FixtureLanes, [Leaf(bike(StringFilter.Equal("m1")))])) <==>
              M1TripRow(row)
  {
    var l := bike(StringFilter.Equal("m1"));
    assert AnyLeaf([Leaf(l)]) by { assert HasLeaf([Leaf(l)][0]); }
    SingleLeafDenote(l, row);
    if row in JoinedSource(FixtureTrips, FixtureBikes, FixtureLanes) && Eval(LeafPred(l), row) == Truth.True {
      MatchedRowsAreM1Trips(row);
    }
    if M1TripRow(row) {
      M1TripsAreMatched(row);
    }
  }
}
