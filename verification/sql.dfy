/**
  Parameterised `UPDATE ... SET col = $i, ... WHERE id = $k` statements: the
  `$n` numbering the repositories build, when such a statement is well formed,
  and what executing one does to a table. Parameter slots are numbered from 1.
*/
module Sql {
  import opened Common
  import opened Table

  /** A bound parameter value. */
  datatype Value = Text(s: string) | Int(i: int) | Real(x: real) | Time(t: int)

  /** One `column = $slot` entry of a SET clause. */
  datatype Assignment = Assignment(column: string, slot: nat)

  /** The SET entries, the slot the `WHERE id = $k` clause names, and the bound values. */
  datatype Update = Update(assignments: seq<Assignment>, whereSlot: nat, values: seq<Value>)

  /** How many SET entries name slot `k`. */
  function SlotUses(assignments: seq<Assignment>, k: nat): nat {
    if |assignments| == 0 then 0
    else (if assignments[0].slot == k then 1 else 0) + SlotUses(assignments[1..], k)
  }

  /** How many places of the whole statement name slot `k`. */
  function Uses(u: Update, k: nat): nat {
    SlotUses(u.assignments, k) + (if u.whereSlot == k then 1 else 0)
  }

  /**
    Every named slot has a bound value and every bound value is named exactly once.
    A value nobody names has no type the database can infer, and a slot named both
    as a timestamp column and as the id would need two types at once.
  */
  predicate WellFormed(u: Update) {
    && (forall j :: 0 <= j < |u.assignments| ==> 1 <= u.assignments[j].slot <= |u.values|)
    && 1 <= u.whereSlot <= |u.values|
    && (forall k :: 1 <= k <= |u.values| ==> Uses(u, k) == 1)
  }

  // ---------------------------------------------------------------- building SET clauses

  /** A candidate SET entry: a column and the value when the caller supplied one (`!== undefined`). */
  type Field = (string, Option<Value>)

  /** The supplied fields, in the fixed order the builder tests them. */
  function Defined(fields: seq<Field>): (d: seq<(string, Value)>)
    ensures |d| <= |fields|
  {
    if |fields| == 0 then []
    else if fields[0].1.Some? then [(fields[0].0, fields[0].1.value)] + Defined(fields[1..])
    else Defined(fields[1..])
  }

  /** The `fields.push(... $${paramIndex++})` / `values.push(...)` loop, starting at slot `next`. */
  function SetClauses(fields: seq<Field>, next: nat): (r: (seq<Assignment>, seq<Value>))
    ensures |r.0| == |r.1| == |Defined(fields)|
    ensures forall j :: 0 <= j < |r.0| ==>
      r.0[j] == Assignment(Defined(fields)[j].0, next + j) && r.1[j] == Defined(fields)[j].1
  {
    if |fields| == 0 then ([], [])
    else if fields[0].1.Some? then
      var rest := SetClauses(fields[1..], next + 1);
      ([Assignment(fields[0].0, next)] + rest.0, [fields[0].1.value] + rest.1)
    else SetClauses(fields[1..], next)
  }

  /**
    The whole builder: no statement at all when nothing was supplied; otherwise the
    supplied fields numbered $1..$k, then the id appended and named by `WHERE id = $(k+1)`.
  */
  function BuildUpdate(fields: seq<Field>, id: string): (r: Option<Update>)
    ensures r.None? <==> |Defined(fields)| == 0
    ensures r.Some? ==>
      var k := |Defined(fields)|;
      && WellFormed(r.value)
      && |r.value.assignments| == k && |r.value.values| == k + 1
      && r.value.whereSlot == k + 1 && r.value.values[k] == Text(id)
      && (forall j :: 0 <= j < k ==>
            r.value.assignments[j] == Assignment(Defined(fields)[j].0, j + 1)
            && r.value.values[j] == Defined(fields)[j].1)
  {
    var (a, v) := SetClauses(fields, 1);
    if |a| == 0 then None
    else
      var u := Update(a, |a| + 1, v + [Text(id)]);
      ConsecutiveSlotUses(a, 1);
      Some(u)
  }

  /** Consecutively numbered entries name each slot of their range once and no other slot. */
  lemma {:induction false} ConsecutiveSlotUses(a: seq<Assignment>, start: nat)
    requires forall j :: 0 <= j < |a| ==> a[j].slot == start + j
    ensures forall k: nat :: SlotUses(a, k) == if start <= k < start + |a| then 1 else 0
  {
    if |a| > 0 {
      ConsecutiveSlotUses(a[1..], start + 1);
    }
  }

  // ---------------------------------------------------------------- executing

  /** Applies the SET entries left to right with a table-specific column setter. */
  function ApplyAssignments<R>(row: R, assignments: seq<Assignment>, values: seq<Value>,
                               setColumn: (R, string, Value) -> R): R
    requires forall j :: 0 <= j < |assignments| ==> 1 <= assignments[j].slot <= |values|
  {
    if |assignments| == 0 then row
    else
      var a := assignments[0];
      ApplyAssignments(setColumn(row, a.column, values[a.slot - 1]), assignments[1..], values, setColumn)
  }

  /** The rows after an update, and the row `RETURNING` hands back to `queryOne` (the first updated one). */
  datatype Outcome<R> = Outcome(rows: seq<R>, returned: Option<R>)

  const RejectedStatement: string := "parameter numbering rejected by the database"

  /**
    Executes an UPDATE whose WHERE clause compares the primary key with a text slot:
    ill-formed numbering is rejected before any row changes; otherwise every row with
    that key gets the SET entries, and the first such row is returned.
  */
  function ExecUpdate<R>(rows: seq<R>, u: Update, keyOf: R -> string,
                         setColumn: (R, string, Value) -> R): (r: Result<Outcome<R>>)
    ensures !WellFormed(u) ==> r == Err(RejectedStatement)
    ensures WellFormed(u) && u.values[u.whereSlot - 1].Text? ==>
      var id := u.values[u.whereSlot - 1].s;
      && r.Ok? && |r.value.rows| == |rows|
      && (forall i :: 0 <= i < |rows| ==>
            r.value.rows[i] == if keyOf(rows[i]) == id then ApplyAssignments(rows[i], u.assignments, u.values, setColumn)
                               else rows[i])
      && (Find(rows, keyOf, id).None? ==> r.value.returned.None?)
      && (Find(rows, keyOf, id).Some? ==>
            r.value.returned == Some(ApplyAssignments(Find(rows, keyOf, id).value, u.assignments, u.values, setColumn)))
  {
    if !WellFormed(u) then Err(RejectedStatement)
    else match u.values[u.whereSlot - 1]
      case Text(id) =>
        var updated := seq(|rows|, i requires 0 <= i < |rows| =>
          if keyOf(rows[i]) == id then ApplyAssignments(rows[i], u.assignments, u.values, setColumn) else rows[i]);
        var found := Find(rows, keyOf, id);
        Ok(Outcome(updated, if found.Some? then Some(ApplyAssignments(found.value, u.assignments, u.values, setColumn)) else None))
      case _ => Err(RejectedStatement)
  }

  /** Applies the supplied fields, in order, directly to a row: what the SET clause is meant to do. */
  function ApplyFields<R>(row: R, fields: seq<Field>, setColumn: (R, string, Value) -> R): R {
    if |fields| == 0 then row
    else if fields[0].1.Some? then ApplyFields(setColumn(row, fields[0].0, fields[0].1.value), fields[1..], setColumn)
    else ApplyFields(row, fields[1..], setColumn)
  }

  /** One step of `ApplyFields` and `Defined` on a list written as a head and a tail. */
  lemma FieldsCons<R>(row: R, x: Field, rest: seq<Field>, setColumn: (R, string, Value) -> R)
    ensures ApplyFields(row, [x] + rest, setColumn)
         == ApplyFields(if x.1.Some? then setColumn(row, x.0, x.1.value) else row, rest, setColumn)
    ensures Defined([x] + rest) == (if x.1.Some? then [(x.0, x.1.value)] else []) + Defined(rest)
  {
    assert ([x] + rest)[1..] == rest;
  }

  /** Executing SET entries numbered from `next` against values holding the clause's values at `next`.. applies the fields. */
  lemma {:induction false} ApplySetClauses<R>(row: R, fields: seq<Field>, next: nat, values: seq<Value>,
                                              setColumn: (R, string, Value) -> R)
    requires next >= 1
    requires next - 1 + |SetClauses(fields, next).1| <= |values|
    requires values[next - 1 .. next - 1 + |SetClauses(fields, next).1|] == SetClauses(fields, next).1
    ensures ApplyAssignments(row, SetClauses(fields, next).0, values, setColumn) == ApplyFields(row, fields, setColumn)
    decreases |fields|, 1
  {
    if |fields| > 0 {
      if fields[0].1.Some? {
        ApplySuppliedHead(row, fields, next, values, setColumn);
      } else {
        assert SetClauses(fields, next) == SetClauses(fields[1..], next);
        ApplySetClauses(row, fields[1..], next, values, setColumn);
      }
    }
  }

  /** The step of `ApplySetClauses` for a supplied first field: it takes slot `next`, the rest start at `next + 1`. */
  lemma {:induction false} ApplySuppliedHead<R>(row: R, fields: seq<Field>, next: nat, values: seq<Value>,
                                                setColumn: (R, string, Value) -> R)
    requires next >= 1 && |fields| > 0 && fields[0].1.Some?
    requires next - 1 + |SetClauses(fields, next).1| <= |values|
    requires values[next - 1 .. next - 1 + |SetClauses(fields, next).1|] == SetClauses(fields, next).1
    ensures ApplyAssignments(row, SetClauses(fields, next).0, values, setColumn) == ApplyFields(row, fields, setColumn)
    decreases |fields|, 0
  {
    var c := SetClauses(fields, next);
    var rest := SetClauses(fields[1..], next + 1);
    assert c.0 == [Assignment(fields[0].0, next)] + rest.0;
    assert c.1 == [fields[0].1.value] + rest.1;
    var window := values[next - 1 .. next - 1 + |c.1|];
    assert values[next - 1] == window[0] == fields[0].1.value;
    assert values[next .. next + |rest.1|] == window[1..];
    var row' := setColumn(row, fields[0].0, fields[0].1.value);
    assert ApplyAssignments(row, c.0, values, setColumn) == ApplyAssignments(row', rest.0, values, setColumn) by {
      assert c.0[1..] == rest.0;
    }
    ApplySetClauses(row', fields[1..], next + 1, values, setColumn);
  }

  /** The statement `BuildUpdate` produces sets, on the row it matches, exactly the supplied fields. */
  lemma BuildUpdateApplies<R>(fields: seq<Field>, id: string, row: R, setColumn: (R, string, Value) -> R)
    requires BuildUpdate(fields, id).Some?
    ensures var u := BuildUpdate(fields, id).value;
      ApplyAssignments(row, u.assignments, u.values, setColumn) == ApplyFields(row, fields, setColumn)
  {
    var (a, v) := SetClauses(fields, 1);
    var u := BuildUpdate(fields, id).value;
    assert u.assignments == a && u.values == v + [Text(id)];
    assert u.values[0 .. |v|] == v;
    ApplySetClauses(row, fields, 1, u.values, setColumn);
  }

  // ---------------------------------------------------------------- LIKE patterns

  /** `%${term}%`: the pattern that matches any text containing `term`. */
  function ContainsPattern(term: string): (p: string)
    ensures |p| == |term| + 2
  {
    "%" + term + "%"
  }

  /** Strips the two wildcards again: the pattern builder loses nothing. */
  function PatternTerm(p: string): string
    requires |p| >= 2
  {
    p[1..|p| - 1]
  }

  lemma ContainsPatternRoundTrip(term: string)
    ensures var p := ContainsPattern(term);
      StartsWith(p, "%") && EndsWith(p, "%") && PatternTerm(p) == term
  {
    var p := ContainsPattern(term);
    assert p[1..|p| - 1] == term;
  }

  lemma ContainsPatternInjective(a: string, b: string)
    requires ContainsPattern(a) == ContainsPattern(b)
    ensures a == b
  {
    ContainsPatternRoundTrip(a);
    ContainsPatternRoundTrip(b);
  }
}
