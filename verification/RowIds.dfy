/**
  src/client/listed.rs, the ids on the popup's rows. A row is handed back by its
  id, which indexes the table beside the rows; a listing that lands while the
  popup is up must not change what an id already handed out stands for.
 */
module RowIds {
  import opened Lists
  import opened Sessions
  import opened Wrappers

  /** What stands at the right of a row: nothing of ours, the mark of where you are, or why it is dim. */
  datatype Note = Said | Here | Cached | NotAvailable

  datatype Row = Row(id: nat, text: string, indent: nat, heading: bool, available: bool, note: Note,
      number: Option<nat>)

  /** `usize::MAX`: a heading's id, which indexes nothing. */
  const NO_ID: nat := 0xFFFF_FFFF_FFFF_FFFF

  function HeadingRow(text: string, indent: nat): Row {
    Row(NO_ID, text, indent, true, true, Said, None)
  }

  function NewRow(id: nat, text: string): Row {
    Row(id, text, 0, false, true, Said, None)
  }

  /** Where a value first is. */
  function PositionOf<T(==)>(v: T, s: seq<T>): (r: Option<nat>)
    ensures r.None? ==> v !in s
    ensures r.Some? ==> r.value < |s| && s[r.value] == v && v !in s[..r.value]
  {
    if s == [] then None
    else if s[0] == v then Some(0)
    else
      match PositionOf(v, s[1..])
      case None => None
      case Some(i) =>
        assert s[..i + 1] == [s[0]] + s[1..][..i];
        Some(i + 1)
  }

  /** Every row you can land on has an id that indexes the table. */
  predicate Indexes<T>(rows: seq<Row>, values: seq<T>) {
    forall k | 0 <= k < |rows| && !rows[k].heading :: rows[k].id < |values|
  }

  /** Some row before `n` stands for a value. */
  ghost predicate Wanted<T(!new)>(rows: seq<Row>, values: seq<T>, n: nat, value: T)
    requires Indexes(rows, values)
  {
    exists k :: 0 <= k < n && k < |rows| && !rows[k].heading && values[rows[k].id] == value
  }

  /** Nothing but ids change, and each row wears the first id its value has in the table. */
  ghost predicate RowsKept<T(!new)>(rows: seq<Row>, values: seq<T>, shown: seq<Row>, kept: seq<T>, n: nat)
    requires Indexes(rows, values) && n <= |rows| == |shown|
  {
    && (forall k | 0 <= k < n && rows[k].heading :: shown[k] == rows[k])
    && (forall k | 0 <= k < n && !rows[k].heading :: shown[k] == rows[k].(id := shown[k].id))
    && (forall k | 0 <= k < n && !rows[k].heading :: PositionOf(values[rows[k].id], kept) == Some(shown[k].id))
  }

  /** The table only grows, by values it did not have that rows stand for. */
  ghost predicate TableGrew<T(!new)>(rows: seq<Row>, values: seq<T>, previous: seq<T>, kept: seq<T>, n: nat)
    requires Indexes(rows, values)
  {
    && previous <= kept
    && (forall i | |previous| <= i < |kept| :: kept[i] !in kept[..i])
    && (forall i | |previous| <= i < |kept| :: Wanted(rows, values, n, kept[i]))
  }

  ghost predicate Preserves<T(!new)>(rows: seq<Row>, values: seq<T>, previous: seq<T>, shown: seq<Row>, kept: seq<T>)
    requires Indexes(rows, values)
  {
    |shown| == |rows| && RowsKept(rows, values, shown, kept, |rows|) && TableGrew(rows, values, previous, kept, |rows|)
  }

  lemma {:induction false} PositionIs<T>(v: T, s: seq<T>, i: nat)
    requires i < |s| && s[i] == v && v !in s[..i]
    ensures PositionOf(v, s) == Some(i)
  {
    if i > 0 {
      assert s[..i] == [s[0]] + s[1..][..i - 1];
      PositionIs(v, s[1..], i - 1);
    }
  }

  lemma PositionInLonger<T>(v: T, s: seq<T>, longer: seq<T>)
    requires s <= longer && v in s
    ensures PositionOf(v, longer) == PositionOf(v, s)
  {
    var i := PositionOf(v, s).value;
    assert longer[..i] == s[..i];
    PositionIs(v, longer, i);
  }

  method PreserveIds<T(==, !new)>(rows: seq<Row>, values: seq<T>, previous: seq<T>)
    returns (shown: seq<Row>, kept: seq<T>)
    requires Indexes(rows, values)
    ensures Preserves(rows, values, previous, shown, kept)
  {
    kept := previous;
    shown := rows;
    for i := 0 to |rows|
      invariant |shown| == |rows| && forall k | i <= k < |rows| :: shown[k] == rows[k]
      invariant RowsKept(rows, values, shown, kept, i)
      invariant TableGrew(rows, values, previous, kept, i)
    {
      if !rows[i].heading {
        var value := values[rows[i].id];
        match PositionOf(value, kept) {
          case Some(id) => shown := shown[i := rows[i].(id := id)];
          case None =>
            OneMore(rows, values, previous, shown, kept, i);
            shown := shown[i := rows[i].(id := |kept|)];
            kept := kept + [value];
        }
      }
    }
  }

  lemma OneMore<T(!new)>(rows: seq<Row>, values: seq<T>, previous: seq<T>, shown: seq<Row>, kept: seq<T>, i: nat)
    requires Indexes(rows, values) && i < |rows| == |shown| && !rows[i].heading
    requires values[rows[i].id] !in kept
    requires RowsKept(rows, values, shown, kept, i) && TableGrew(rows, values, previous, kept, i)
    ensures var more := kept + [values[rows[i].id]];
            && TableGrew(rows, values, previous, more, i + 1)
            && PositionOf(values[rows[i].id], more) == Some(|kept|)
            && forall k | 0 <= k < i && !rows[k].heading :: PositionOf(values[rows[k].id], more) == Some(shown[k].id)
  {
    var value := values[rows[i].id];
    var more := kept + [value];
    assert more[..|kept|] == kept;
    PositionIs(value, more, |kept|);
    forall k | 0 <= k < i && !rows[k].heading ensures PositionOf(values[rows[k].id], more) == Some(shown[k].id) {
      PositionInLonger(values[rows[k].id], kept, more);
    }
    forall j | |previous| <= j < |more| ensures more[j] !in more[..j] && Wanted(rows, values, i + 1, more[j]) {
      if j < |kept| {
        assert more[..j] == kept[..j];
        assert Wanted(rows, values, i, kept[j]);
      }
    }
  }

  // ----- Every listing of one attach -----

  /** What happens to the rows between two redraws: a listing lands, or something is renamed. */
  datatype Step<!T> = Landing(rows: seq<Row>, values: seq<T>) | Renaming(f: T -> T)

  datatype Shown<T> = Shown(rows: seq<Row>, table: seq<T>)

  ghost predicate Follows<T(!new)>(step: Step<T>, before: Shown<T>, after: Shown<T>) {
    match step
    case Landing(rows, values) =>
      Indexes(rows, values) && Preserves(rows, values, before.table, after.rows, after.table)
    case Renaming(f) =>
      && after.table == Map(f, before.table)
      && |after.rows| == |before.rows|
      && forall k | 0 <= k < |before.rows| ::
           after.rows[k].id == before.rows[k].id && after.rows[k].heading == before.rows[k].heading
  }

  ghost predicate Run<T(!new)>(steps: seq<Step<T>>, states: seq<Shown<T>>) {
    && |states| == |steps| + 1
    && Indexes(states[0].rows, states[0].table)
    && forall i | 0 <= i < |steps| :: Follows(steps[i], states[i], states[i + 1])
  }

  /** What becomes of a value over some steps: the renames, and nothing else. */
  function Carried<T>(steps: seq<Step<T>>, value: T): T {
    if steps == [] then value
    else
      var before := Carried(steps[..|steps| - 1], value);
      match steps[|steps| - 1]
      case Landing(_, _) => before
      case Renaming(f) => f(before)
  }

  /** An id handed out in any listing stands for the same thing in every later one. */
  lemma {:induction false} IdsKeepTheirMeaning<T(!new)>(steps: seq<Step<T>>, states: seq<Shown<T>>, i: nat, j: nat,
          id: nat)
    requires Run(steps, states) && i <= j <= |steps|
    requires id < |states[i].table|
    ensures id < |states[j].table|
    ensures states[j].table[id] == Carried(steps[i..j], states[i].table[id])
    decreases j
  {
    if i < j {
      hide Follows;
      IdsKeepTheirMeaning(steps, states, i, j - 1, id);
      assert steps[i..j][..j - 1 - i] == steps[i..j - 1];
      StepKeepsMeaning(steps[j - 1], states[j - 1], states[j], id);
    }
  }

  lemma StepKeepsMeaning<T(!new)>(step: Step<T>, before: Shown<T>, after: Shown<T>, id: nat)
    requires Follows(step, before, after) && id < |before.table|
    ensures id < |after.table|
    ensures after.table[id] == match step case Landing(_, _) => before.table[id] case Renaming(f) => f(before.table[id])
  {
  }

  /** So a row chosen out of an old picture names what it was built from, renames aside, whatever has landed since. */
  lemma RowsKeepTheirMeaning<T(!new)>(steps: seq<Step<T>>, states: seq<Shown<T>>, i: nat, j: nat, k: nat)
    requires Run(steps, states) && i < j <= |steps|
    requires steps[i].Landing? && k < |steps[i].rows| && !steps[i].rows[k].heading
    ensures Indexes(steps[i].rows, steps[i].values) && |states[i + 1].rows| == |steps[i].rows|
    ensures var id := states[i + 1].rows[k].id;
            && id < |states[j].table|
            && states[j].table[id] == Carried(steps[i + 1..j], steps[i].values[steps[i].rows[k].id])
  {
    assert Follows(steps[i], states[i], states[i + 1]);
    IdsKeepTheirMeaning(steps, states, i + 1, j, states[i + 1].rows[k].id);
  }

  /**
    A row that stands for what an id was handed out for, whatever that is called by
    now and however long it was away, wears that id again exactly when nothing with
    an earlier id has come to be called the same; and else one of the earlier ids.
   */
  lemma ReturningRowsKeepTheirId<T(!new)>(steps: seq<Step<T>>, states: seq<Shown<T>>, i: nat, j: nat, k: nat, id: nat)
    requires Run(steps, states) && i <= j < |steps| && steps[j].Landing?
    requires k < |steps[j].rows| && !steps[j].rows[k].heading && id < |states[i].table|
    ensures Indexes(steps[j].rows, steps[j].values) && |states[j + 1].rows| == |steps[j].rows|
    ensures var value, wears := steps[j].values[steps[j].rows[k].id], states[j + 1].rows[k].id;
            value == Carried(steps[i..j], states[i].table[id]) ==>
              && wears <= id
              && (wears == id <==> forall n | 0 <= n < id :: Carried(steps[i..j], states[i].table[n]) != value)
  {
    assert Follows(steps[j], states[j], states[j + 1]);
    var value := steps[j].values[steps[j].rows[k].id];
    if value == Carried(steps[i..j], states[i].table[id]) {
      hide Preserves, PositionOf;
      forall n | 0 <= n <= id
        ensures n < |states[j + 1].table| && states[j + 1].table[n] == Carried(steps[i..j], states[i].table[n])
      {
        IdsKeepTheirMeaning(steps, states, i, j, n);
        StepKeepsMeaning(steps[j], states[j], states[j + 1], n);
      }
      var wears := states[j + 1].rows[k].id;
      FirstIs(value, states[j + 1].table, id, wears);
      if wears == id {
        forall n | 0 <= n < id ensures Carried(steps[i..j], states[i].table[n]) != value {
          assert states[j + 1].table[n] != value;
        }
      } else {
        assert Carried(steps[i..j], states[i].table[wears]) == value;
      }
    }
  }

  lemma FirstIs<T>(value: T, s: seq<T>, id: nat, wears: nat)
    requires id < |s| && s[id] == value && PositionOf(value, s) == Some(wears)
    ensures wears <= id && (wears == id <==> forall n | 0 <= n < id :: s[n] != value)
  {
    if wears < id { assert s[wears] == value; }
  }

  /** With nothing renamed meanwhile that is always so, for the first id of a value. */
  lemma UnrenamedRowsKeepTheirId<T(!new)>(steps: seq<Step<T>>, states: seq<Shown<T>>, i: nat, j: nat, k: nat)
    requires Run(steps, states) && i <= j < |steps|
    requires forall n | i <= n <= j :: steps[n].Landing?
    requires k < |steps[j].rows| && !steps[j].rows[k].heading
    ensures Indexes(steps[j].rows, steps[j].values) && |states[j + 1].rows| == |steps[j].rows|
    ensures var value := steps[j].values[steps[j].rows[k].id];
            value in states[i].table ==> PositionOf(value, states[i].table) == Some(states[j + 1].rows[k].id)
  {
    assert Follows(steps[j], states[j], states[j + 1]);
    var value := steps[j].values[steps[j].rows[k].id];
    if value in states[i].table {
      var id := PositionOf(value, states[i].table).value;
      forall n | 0 <= n <= id ensures Carried(steps[i..j], states[i].table[n]) == states[i].table[n] {
        LandingsCarryNothing(steps[i..j], states[i].table[n]);
      }
      ReturningRowsKeepTheirId(steps, states, i, j, k, id);
    }
  }

  lemma {:induction false} LandingsCarryNothing<T>(steps: seq<Step<T>>, value: T)
    requires forall n | 0 <= n < |steps| :: steps[n].Landing?
    ensures Carried(steps, value) == value
    decreases |steps|
  {
    if steps != [] { LandingsCarryNothing(steps[..|steps| - 1], value); }
  }

  // ----- Renaming -----

  function RenamedTo(was: Located, name: string): Located -> Located {
    (at: Located) => if at == was then Located(at.host, name) else at
  }

  /**
    So one rename costs the session it is of its id exactly when the name it is given
    has an earlier one, a session that is gone being enough; and costs the session
    that had the name its own when the renamed one's is earlier.
   */
  lemma RenameTakesAnId(table: seq<Located>, was: Located, name: string, id: nat)
    requires id < |table| && table[id] !in table[..id]
    ensures var steps, to := [Renaming(RenamedTo(was, name))], Located(was.host, name);
            (forall n | 0 <= n < id :: Carried(steps, table[n]) != Carried(steps, table[id])) <==>
              !(table[id] == was && to in table[..id]) && !(table[id] == to && was in table[..id])
  {
    var f := RenamedTo(was, name);
    forall v: Located ensures Carried([Renaming(f)], v) == f(v) {
      assert [Renaming(f)][..0] == [];
    }
  }

  /** A confirmed rename, in the table and on the rows that show it. */
  method Renamed(rows: seq<Row>, table: seq<Located>, was: Located, name: string) returns (after: Shown<Located>)
    requires Indexes(rows, table)
    ensures Follows(Renaming(RenamedTo(was, name)), Shown(rows, table), after)
    ensures forall k | 0 <= k < |rows| ::
              after.rows[k] == if !rows[k].heading && table[rows[k].id] == was then rows[k].(text := name) else rows[k]
  {
    var shown, at := rows, table;
    for id := 0 to |table|
      invariant |at| == |table| && |shown| == |rows|
      invariant forall k | 0 <= k < |at| :: at[k] == if k < id then RenamedTo(was, name)(table[k]) else table[k]
      invariant forall k | 0 <= k < |rows| ::
                  shown[k] == if !rows[k].heading && rows[k].id < id && table[rows[k].id] == was
                              then rows[k].(text := name) else rows[k]
    {
      if at[id] == was {
        at := at[id := Located(was.host, name)];
        ghost var before := shown;
        for k := 0 to |shown|
          invariant |shown| == |rows|
          invariant forall n | 0 <= n < |rows| ::
                      shown[n] == if n < k && !rows[n].heading && rows[n].id == id then before[n].(text := name) else before[n]
        {
          if !shown[k].heading && shown[k].id == id {
            shown := shown[k := shown[k].(text := name)];
          }
        }
      }
    }
    after := Shown(shown, at);
  }
}
