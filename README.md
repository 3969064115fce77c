# Dynamic filters for Diesel, modelled in Dafny

The repository builds SQL `WHERE` clauses at run time from user-supplied
filter values. A caller describes the filter as a tree of conditions:
leaves that compare one column with a value, grouped by `And(...)` and
`Or(...)`. `create_filter` walks the list. It maps each condition to a
boxed predicate and drops groups that produced nothing. Then it folds the
survivors left to right into `c1 AND c2 AND …` or `c1 OR c2 OR …`.
`create_filtered_query` attaches the result to a joined source, or leaves
the query unfiltered when there is nothing to attach. The flat ancestor in
`dynamic_filters.rs` does the same on one table, with AND only and no
groups.

The model takes this in layers:

- `Kleene`: SQL's three-valued truth.
- `Predicates`: the SQL predicate and its evaluation on a row. A column
  missing from the row is NULL.
- `LikePattern`: SQL `LIKE` with `%` and `_`.
- `Query`: `WHERE`, `INNER JOIN`, `LEFT JOIN` and conditional filtering.
- `Filters`: the leaf filters of `lib.rs` (number, string, boolean) and
  `AndOr`.
- `Compiler`: `to_boxed_condition` and `create_filter`, written once over
  a generic condition tree. The schema-specific leaf mapping is a
  parameter.
- `StackOverflow`, `BikeSchema` and `BikeTripSchema`: the three schema
  files. Each instantiates the compiler with its own leaves and source.
- `DynamicFilters`: the flat AND-only compiler.

The properties proved are these:

- Compilation is correct with respect to a fold-free reference meaning of
  the tree.
- The fold is the left-nested chain.
- A group yields nothing exactly when it holds no leaf.
- Empty groups vanish without changing the result.
- A missing joined row makes a value filter Unknown, so the row is
  dropped.
- The repository's own test scenarios come out as the tests expect.

## Model

| member | source | states |
|---|---|---|
| Kleene.And3 | src/stack_overflow.rs:55 | `a AND b` is True iff both are True, and False iff either is False (Unknown otherwise) |
| Kleene.Or3 | src/stack_overflow.rs:56 | `a OR b` is True iff either is True, and False iff both are False |
| LikePattern.LiteralMatchesItself | src/lib.rs:39 | a pattern without `%` or `_` matches exactly the identical string |
| LikePattern.AnyRunMatchesAll | src/lib.rs:39 | the pattern `%` matches every string |
| LikePattern.ContainsPattern | src/dynamic_filters.rs:54 | `%c%` matches a string iff the character `c` occurs in it |
| Predicates.TwoValued | src/stack_overflow.rs:25 | a predicate over columns that are all present on the row (NOT NULL) is never Unknown, so it lives in the plain `Bool` domain |
| Query.Where | src/inner_statement/bike.rs:81 | `WHERE p` never returns more rows than its source |
| Query.WhereMember | src/inner_statement/bike.rs:81 | a row is in `WHERE p` iff it is a source row on which `p` is True (False and Unknown both drop it) |
| Query.WhereAppend | src/inner_statement/bike.rs:81 | `WHERE` keeps the source order: it distributes over concatenation of the source |
| Query.Filter | src/inner_statement/bike.rs:81 | `.filter(p)` on a query leaves its source alone and selects rows on which the earlier filter (if any) and `p` are both True |
| Query.Load | src/stack_overflow.rs:100-104 | loading an unfiltered query returns its source; a filtered one returns exactly the source rows its predicate makes True |
| Query.ApplyIfPresent | src/inner_statement/bike.rs:80-83 | `None` leaves the query as it was; `Some(p)` loads `WHERE p` over the source |
| Query.InnerJoin | src/inner_statement/bike_trip.rs:71 | `INNER JOIN` gives at most one row per pair of a left and a right row (its rows are characterised by `InnerJoinMember`) |
| Query.LeftJoin | src/inner_statement/bike.rs:78 | `LEFT JOIN` gives at least one row per left row (its rows are characterised by `LeftJoinMember`) |
| Query.InnerJoinMember | src/inner_statement/bike_trip.rs:71 | a row is in `INNER JOIN … ON l.lc = r.rc` iff it merges a left and a right row that satisfy the ON condition |
| Query.LeftJoinMember | src/inner_statement/bike.rs:78 | a row is in `LEFT JOIN` iff it merges a matching pair, or it is a left row that matches no right row, kept alone |
| Query.InnerJoinColumns | src/inner_statement/bike_trip.rs:71 | every inner-join row holds the columns of both its sides |
| Query.LeftJoinAppend | src/inner_statement/bike.rs:78 | a left join keeps the order of its left side: it distributes over concatenation there |
| Query.LeftJoinColumns | src/inner_statement/bike.rs:78 | every left-join row holds the columns of its left side |
| Filters.NumberFilterPred | src/lib.rs:14-25 | `number_filter!(f, col)` builds one comparison that mentions only `col`; its meaning is `NumberFilterSound` |
| Filters.StringFilterPred | src/lib.rs:34-43 | `string_filter!(f, col)` builds one comparison that mentions only `col`; its meaning is `StringFilterSound` |
| Filters.BooleanFilterPred | src/lib.rs:52-61 | `boolean_filter!(f, col)` builds one comparison that mentions only `col`; its meaning is `BooleanFilterSound` |
| Filters.NumberFilterSound | src/lib.rs:14-25 | each number filter evaluates as `=`, `<>`, `>`, `<`, `IS NULL`, `IS NOT NULL` on the column: NULL gives Unknown for value comparisons and a definite answer for null checks |
| Filters.StringFilterSound | src/lib.rs:34-43 | each string filter evaluates as `=`, `<>`, `LIKE`, `IN (...)`; a NULL column gives Unknown, except that `IN ()` is always False |
| Filters.BooleanFilterSound | src/lib.rs:52-61 | `True`/`False` are `col = true` / `col = false`; `IsNull`/`IsNotNull` test for NULL |
| Filters.NumberFilterInjective | src/lib.rs:14-25 | different number filters compile to different predicates on the same column |
| Filters.NullChecksComplementary | src/lib.rs:21-22 | `IS NULL` and `IS NOT NULL` are never Unknown and exactly one of them is True, for number and boolean columns |
| Filters.AbsentIsUnknown | src/lib.rs:17-20 | on a NULL column every value comparison (number, string, boolean `True`/`False`) is Unknown |
| Filters.InIsMembership | src/lib.rs:40 | on a present text column `IN (vs)` is True iff the value is one of `vs`, False otherwise |
| Filters.BooleanFiltersExclusive | src/lib.rs:55-56 | on a present boolean column exactly one of the filters `True` and `False` holds |
| Compiler.Compile | src/stack_overflow.rs:28-42 | `to_boxed_condition`: a leaf always compiles; `None` comes back only from a group none of whose children compiles (the full characterisation is `CompileNoneIffNoLeaf` and `CompileSound`) |
| Compiler.Survivors | src/stack_overflow.rs:50 | `filter_map(to_boxed_condition)` never returns more predicates than there are children (characterised by `SurvivorsEmptyIffNoLeaf`, `SurvivorsAppend` and `SurvivorsSound`) |
| Compiler.Step | src/stack_overflow.rs:52-60 | the fold closure: with no accumulator the new predicate stands alone; otherwise the result evaluates as the accumulator AND (OR) the new predicate |
| Compiler.CreateFilter | src/stack_overflow.rs:46-61 | `create_filter` returns a predicate exactly when some child compiles (its shape is `CreateFilterIsLeftFold`, its meaning `CreateFilterSound`) |
| Compiler.Combine | src/stack_overflow.rs:54-57 | combining two predicates under `AndOr` evaluates as Kleene AND or OR of the two, over the union of their columns |
| Compiler.Fold | src/stack_overflow.rs:52-60 | the fold produces nothing only when it starts with nothing and has nothing to fold |
| Compiler.FoldFromChain | src/stack_overflow.rs:52-60 | folding more predicates onto a left-nested chain gives the chain of the whole list |
| Compiler.FoldIsChain | src/stack_overflow.rs:47-60 | folding from `None` gives nothing for an empty list and the left-nested chain `((p1 op p2) op p3) …` otherwise |
| Compiler.CreateFilterIsLeftFold | src/stack_overflow.rs:46-61 | `create_filter` is the left-nested chain of the surviving children; one survivor comes back unchanged |
| Compiler.CompileNoneIffNoLeaf | src/stack_overflow.rs:28-42 | `to_boxed_condition` returns `None` exactly for a condition that holds no leaf anywhere |
| Compiler.SurvivorsEmptyIffNoLeaf | src/stack_overflow.rs:50 | `filter_map` drops every child exactly when no child holds a leaf |
| Compiler.CreateFilterNoneIffNoLeaf | src/stack_overflow.rs:46-61 | `create_filter` returns `None` exactly when no condition in the list holds a leaf; in particular for an empty list |
| Compiler.SurvivorsAppend | src/stack_overflow.rs:47-50 | `filter_map` keeps order and distributes over concatenation |
| Compiler.InsertLeaflessUnchanged | src/stack_overflow.rs:50 | inserting a leafless condition anywhere in the list does not change the compiled filter |
| Compiler.EmptyGroupsVanish | src/stack_overflow.rs:33-40 | `And([])` and `Or([])` compile to nothing and can be inserted anywhere without effect |
| Compiler.GroupingFollowsShape | src/stack_overflow.rs:33-40 | a lone `And(cs)` / `Or(cs)` compiles like the list `cs` combined with AND / OR, whatever the outer mode |
| Compiler.LoneChild | src/stack_overflow.rs:46-61 | a one-element list compiles to exactly what its element compiles to |
| Compiler.EvalChain | src/stack_overflow.rs:52-60 | a left-nested AND (OR) chain is False (True) iff some member is, else Unknown iff some member is, else True (False) |
| Compiler.VerdictSnoc | src/stack_overflow.rs:54-57 | one more value at the end of a group combines with the group's verdict by the group's operator |
| Compiler.CompileSound | src/stack_overflow.rs:28-42 | whenever a condition compiles, its predicate evaluates on every row to the condition's reference meaning |
| Compiler.CreateFilterSound | src/stack_overflow.rs:46-61 | whenever a list compiles, its predicate evaluates to the combined meaning of the children that hold a leaf |
| Compiler.SurvivorsSound | src/stack_overflow.rs:50 | the predicates kept by `filter_map` evaluate to the meanings of the children that hold a leaf, in order |
| Compiler.RegroupWithinMode | src/stack_overflow.rs:28-61 | within one mode, `[a, [b, c]]` and `[[a, b], c]` evaluate alike on every row |
| Compiler.LiveDenotesOfTwo | src/stack_overflow.rs:33-40 | two children that both hold a leaf contribute both their meanings, in order |
| Compiler.CompileColumns | src/stack_overflow.rs:28-42 | a compiled condition refers only to columns its leaves refer to |
| Compiler.CreateFilterColumns | src/stack_overflow.rs:46-61 | a compiled list refers only to columns its leaves refer to |
| Compiler.SurvivorsColumns | src/stack_overflow.rs:50 | every surviving predicate refers only to leaf columns |
| Compiler.ChainColumns | src/stack_overflow.rs:52-60 | a chain refers only to the columns of its members |
| StackOverflow.LeafPred | src/stack_overflow.rs:31 | `bar(v)` is `foo.bar = v`: on a present `bar` it is True iff the value is `v` |
| StackOverflow.ToBoxedCondition | src/stack_overflow.rs:28-42 | a leaf boxes to its comparison; `None` iff no leaf; only `foo.bar` is referenced; the result evaluates to the tree's meaning |
| StackOverflow.CreateFilter | src/stack_overflow.rs:46-61 | `None` iff no leaf; otherwise the combined meaning of the live children under the given mode |
| StackOverflow.PlainBoolean | src/stack_overflow.rs:25 | on a row of `foo` the compiled filter is never Unknown (the `Bool` SQL type) |
| StackOverflow.OrFirstKeepsRow | src/stack_overflow.rs:87-105 | on the row `bar = 1`, `bar = 1 OR (bar = 1 AND bar = 0)` is True |
| StackOverflow.AndLastDropsRow | src/stack_overflow.rs:107-126 | on the row `bar = 1`, `(bar = 1 OR bar = 1) AND bar = 0` is False |
| StackOverflow.GroupingScenario | src/stack_overflow.rs:83-126 | on the row `bar = 1`, `bar = 1 OR (bar = 1 AND bar = 0)` keeps the row and `(bar = 1 OR bar = 1) AND bar = 0` drops it |
| BikeSchema.LeafPred | src/inner_statement/bike.rs:46-47 | `name(f)` / `color(f)` is the string filter on `bike.name` / `color.name`, with the reference meaning of that filter |
| BikeSchema.ToBoxedCondition | src/inner_statement/bike.rs:43-58 | a leaf boxes to its filter; `None` iff no leaf; the result evaluates to the tree's meaning |
| BikeSchema.CreateFilter | src/inner_statement/bike.rs:61-76 | `None` iff no leaf; otherwise the combined meaning of the live children |
| BikeSchema.CreateFilteredQuery | src/inner_statement/bike.rs:77-84 | the source is `bike LEFT JOIN color`; with no leaf it is unfiltered; otherwise it loads exactly the joined rows on which the AND of the conditions is True |
| BikeSchema.BikeRowsMember | src/inner_statement/bike.rs:10-17 | the `bike` table holds exactly the rows of its records |
| BikeSchema.ColorRowsMember | src/inner_statement/bike.rs:19-24 | the `color` table holds exactly the rows of its records |
| BikeSchema.JoinedSource | src/inner_statement/bike.rs:78 | `bike LEFT JOIN color ON bike.color_id = color.id` loses no bike: it has at least one row per bike (its rows are `JoinedRowShape`) |
| BikeSchema.JoinedRowShape | src/inner_statement/bike.rs:78 | a joined row is a bike with its colour (by `color_id`), or a bike with no colour on its own |
| BikeSchema.MatchingColors | src/inner_statement/bike.rs:26 | the colours a bike joins with are those whose `id` is its `color_id`, in table order |
| BikeSchema.ColorMatch | src/inner_statement/bike.rs:26 | a bike and a colour join iff the colour's `id` is the bike's `color_id` |
| BikeSchema.ColorlessBikeKept | src/inner_statement/bike.rs:78 | a bike whose `color_id` names no colour is kept by the left join with every colour column NULL |
| BikeSchema.ColorlessBikeDropped | src/inner_statement/bike.rs:47 | a bike with no colour survives the left join, but no `color(f)` filter is True on it, so filtering by any of them (`IN ()` included) drops it |
| BikeSchema.ColorlessBikeUnknown | src/inner_statement/bike.rs:47 | on a bike with no colour every `color(f)` value filter other than `IN ()` is Unknown |
| BikeSchema.FixtureJoin | src/inner_statement/mod.rs:21-71 | the test's three bikes each join with their own colour, in order |
| BikeSchema.ColorInScenario | src/inner_statement/mod.rs:80-82 | `color(In(["orange", "purple"]))` keeps bikes c1 and c2 with their colours and drops m1 |
| BikeTripSchema.LeafPred | src/inner_statement/bike_trip.rs:87-89 | `bike(f)`, `cycle_lane(f)`, `bike_trip(f)` are the string filter on that table's `name`, with its reference meaning |
| BikeTripSchema.ToBoxedCondition | src/inner_statement/bike_trip.rs:84-100 | a leaf boxes to its filter; `None` iff no leaf; the result evaluates to the tree's meaning |
| BikeTripSchema.CreateFilter | src/inner_statement/bike_trip.rs:103-118 | `None` iff no leaf; otherwise the combined meaning of the live children |
| BikeTripSchema.CreateFilteredQuery | src/inner_statement/bike_trip.rs:69-82 | the source is `bike_trip INNER JOIN bike LEFT JOIN cycle_lane ON road_id`; unfiltered with no leaf; otherwise exactly the joined rows the AND of the conditions makes True |
| BikeTripSchema.TripRowsMember | src/inner_statement/bike_trip.rs:31-38 | the `bike_trip` table holds exactly the rows of its records |
| BikeTripSchema.LaneRowsMember | src/inner_statement/bike_trip.rs:23-29 | the `cycle_lane` table holds exactly the rows of its records |
| BikeTripSchema.TripsWithBikes | src/inner_statement/bike_trip.rs:70-71 | `bike_trip INNER JOIN bike ON bike_trip.bike_id = bike.id` has at most one row per trip and bike (its rows are `TripsWithBikesMember`) |
| BikeTripSchema.JoinedSource | src/inner_statement/bike_trip.rs:70-76 | the left join of `cycle_lane` on `road_id` loses no trip-with-bike row (its rows are `JoinedRowShape`) |
| BikeTripSchema.TripsWithBikesMember | src/inner_statement/bike_trip.rs:71 | the inner join pairs each trip with the bike whose `id` is its `bike_id`, and holds nothing else |
| BikeTripSchema.LaneMatch | src/inner_statement/bike_trip.rs:74 | a trip with its bike matches a lane iff the lane's `road_id` is the trip's |
| BikeTripSchema.JoinedRowShape | src/inner_statement/bike_trip.rs:70-76 | a joined row is a trip with its bike and one lane on its road, or a trip with its bike alone when its road has no lane |
| BikeTripSchema.InnerSideNeverUnknown | src/inner_statement/bike_trip.rs:87-89 | `bike(f)` and `bike_trip(f)` filters are never Unknown on a joined row |
| BikeTripSchema.TripWithBikeJoined | src/inner_statement/bike_trip.rs:71 | a trip and the bike its `bike_id` names are paired by the inner join |
| BikeTripSchema.TripWithLaneJoined | src/inner_statement/bike_trip.rs:70-76 | a trip with its bike and a lane on its road is a joined row |
| BikeTripSchema.LanelessTripKept | src/inner_statement/bike_trip.rs:73-75 | a trip whose road has no lane is kept by the left join with every lane column NULL |
| BikeTripSchema.LanelessTripDropped | src/inner_statement/bike_trip.rs:88 | such a row survives the joins, but no `cycle_lane(f)` filter is True on it, so filtering by any of them (`IN ()` included) drops it |
| BikeTripSchema.LanelessTripUnknown | src/inner_statement/bike_trip.rs:88 | on a trip with its bike and no lane every `cycle_lane(f)` value filter other than `IN ()` is Unknown |
| BikeTripSchema.BikeEqualScenario | src/inner_statement/mod.rs:165-179 | on the test's data `bike(Equal("m1"))` keeps trip t2 on bike m1 with exactly the lanes bendy, flatty and windy |
| DynamicFilters.ToPred | src/dynamic_filters.rs:44-57 | each condition maps to one comparison on `number_field`, `text_field` or `bool_field`, which on a row of `test` is never Unknown and is True iff the condition holds of the record |
| DynamicFilters.ToPreds | src/dynamic_filters.rs:44-57 | the `map` step gives one comparison per condition, in order, each the `ToPred` of its condition |
| DynamicFilters.CreateFilter | src/dynamic_filters.rs:40-66 | `None` iff the list is empty; otherwise the left-nested AND chain of the mapped comparisons, True on a row iff every condition holds and False otherwise |
| DynamicFilters.WhereKeeps | src/dynamic_filters.rs:40-66 | filtering `test` keeps, in table order, exactly the records of which every condition holds |
| DynamicFilters.SelectKeeps | src/dynamic_filters.rs:100-110 | loading the filtered table gives the rows of exactly those records |
| DynamicFilters.EqualScenario | src/dynamic_filters.rs:100-110 | on rows 1, 2, 3, `Equal(1)` selects row 1 |
| DynamicFilters.NotEqualScenario | src/dynamic_filters.rs:112-124 | on rows 1, 2, 3, `NotEqual(1)` selects rows 2 and 3 |
| DynamicFilters.BetweenScenario | src/dynamic_filters.rs:126-156 | `GreaterThen(1)` with `LowerThen(3)` selects row 2, before and after rows 4.1 and 4.2 are added |
| DynamicFilters.MixedScenario | src/dynamic_filters.rs:158-173 | `GreaterThen(1)`, `Like("%4%")` and `bool_field(true)` select only row 4.2 |

## Left out

- The `person` schema: src/inner_statement/person is not part of this model. So the first assertion of the test in `src/inner_statement/mod.rs` (selecting owners) is reduced to the bike-level `BikeSchema.ColorInScenario`.
- `.select(...)` projections and `.order_by(...)` are not modelled. Scenario lemmas state the whole rows in source order; `BikeTripSchema.BikeEqualScenario` states the set of rows rather than the sorted list of lane names.
- Database connections, `batch_execute`, `CREATE TABLE` and `INSERT` are left out, as are errors from `load` and `unwrap`. Table contents are parameters (sequences of records).
- Diesel's type-level machinery is not modelled: boxing, `BoxableExpression`, query sources, `joinable!` and `allow_tables_to_appear_in_same_query!`. `.nullable()` only changes the SQL type, not the value, so it has no counterpart. The plain `Bool` domain of the NOT NULL tables appears as the never-Unknown properties instead.
- SQLite `LIKE` folds ASCII case and supports `ESCAPE`; `LikePattern.Matches` is case-sensitive and has no escape character.
- `i32` values and SQLite's dynamic typing are not modelled: integers are unbounded, and `>`/`<` between values of different kinds are False rather than SQLite's cross-type ordering.
- The leaf-mapping macros `number_filter!`, `string_filter!` and `boolean_filter!` are modelled as the functions `Filters.NumberFilterPred`, `Filters.StringFilterPred` and `Filters.BooleanFilterPred`. Only `string_filter!` is used by a schema here: `BikeSchema.LeafPred` and `BikeTripSchema.LeafPred` call `Filters.StringFilterPred`. The number and boolean versions are modelled and proved but no schema in this model calls them. `StackOverflow.LeafPred` and `DynamicFilters.ToPred` build their comparisons directly, as `src/stack_overflow.rs` and `src/dynamic_filters.rs` do. The three copies of `to_boxed_condition` and `create_filter` share one generic definition in `Compiler`.
- `IN ()` with an empty list is False even on a NULL column, following SQLite; other value filters on NULL are Unknown.
