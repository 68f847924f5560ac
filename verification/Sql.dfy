/** Parameterised UPDATE statements and the builder that numbers their
    placeholders. A statement is kept in parsed form: which column each SET item
    assigns, which `$k` it reads, and which `$k` the two WHERE tests read. */
module Sql {
  import opened Wrappers
  import opened Domain

  // A value handed to the driver. A feature set travels as its jsonb text.
  datatype Value =
    | VUuid(id: Uuid)
    | VPlanCode(code: TenantPlan)
    | VText(s: string)
    | VBool(b: bool)
    | VInt(n: int)
    | VNull
    | VJsonb(j: Any)

  datatype Assign<C> = Assign(col: C, arg: nat)

  // SET <sets> WHERE <primary key> = $key AND record_version = $version
  datatype Statement<C> = Statement(sets: seq<Assign<C>>, key: nat, version: nat)

  function Arg(args: seq<Value>, k: nat): Option<Value> {
    if 1 <= k <= |args| then Some(args[k - 1]) else None
  }

  predicate Names<C(==)>(sets: seq<Assign<C>>, c: C) {
    exists i | 0 <= i < |sets| :: sets[i].col == c
  }

  predicate Distinct<C(==)>(sets: seq<Assign<C>>) {
    forall i, j | 0 <= i < j < |sets| :: sets[i].col != sets[j].col
  }

  // PostgreSQL rejects an empty SET list and a column assigned twice.
  predicate WellFormed<C(==)>(sets: seq<Assign<C>>) {
    sets != [] && Distinct(sets)
  }

  // The row after the SET items, given how one column takes a value; None when
  // a placeholder is missing or a value does not fit its column.
  function EvalSets<C, R>(put: (R, C, Value) -> Option<R>, sets: seq<Assign<C>>, args: seq<Value>, row: R): Option<R> {
    if sets == [] then Some(row)
    else
      var last := sets[|sets| - 1];
      match EvalSets(put, sets[..|sets| - 1], args, row)
      case None => None
      case Some(r) =>
        match Arg(args, last.arg)
        case None => None
        case Some(v) => put(r, last.col, v)
  }

  // The repositories' growing `set` and `args`.
  datatype Builder<C> = Builder(sets: seq<Assign<C>>, args: seq<Value>) {

    // One `col = $n`, n being the number the new argument gets.
    function Add(col: C, v: Value): Builder<C> {
      Builder(sets + [Assign(col, |args| + 1)], args + [v])
    }

    function AddIf(col: C, v: Option<Value>): Builder<C> {
      if v.Some? then Add(col, v.value) else this
    }

    ghost predicate Closed() {
      forall i | 0 <= i < |sets| :: 1 <= sets[i].arg <= |args|
    }
  }

  // More arguments do not change what the earlier placeholders mean.
  lemma {:induction false} EvalIgnoresLaterArgs<C, R>(put: (R, C, Value) -> Option<R>, b: Builder<C>,
      more: seq<Value>, row: R)
    requires b.Closed()
    ensures EvalSets(put, b.sets, b.args + more, row) == EvalSets(put, b.sets, b.args, row)
    decreases |b.sets|
  {
    if b.sets != [] {
      var init := Builder(b.sets[..|b.sets| - 1], b.args);
      assert forall i | 0 <= i < |init.sets| :: init.sets[i] == b.sets[i];
      EvalIgnoresLaterArgs(put, init, more, row);
      var k := b.sets[|b.sets| - 1].arg;
      assert (b.args + more)[k - 1] == b.args[k - 1];
    }
  }

  // An added item resolves to its own value, on top of what was there.
  lemma AddMeaning<C, R>(put: (R, C, Value) -> Option<R>, b: Builder<C>, col: C, v: Value, row: R)
    requires b.Closed()
    ensures b.Add(col, v).Closed()
    ensures EvalSets(put, b.Add(col, v).sets, b.Add(col, v).args, row)
         == match EvalSets(put, b.sets, b.args, row) case None => None case Some(r) => put(r, col, v)
  {
    var b' := b.Add(col, v);
    assert b'.sets[..|b'.sets| - 1] == b.sets;
    EvalIgnoresLaterArgs(put, b, [v], row);
    assert b'.args[|b.args|] == v;
  }

  // The same for an optional item: absent leaves the meaning alone.
  lemma AddIfMeaning<C, R>(put: (R, C, Value) -> Option<R>, b: Builder<C>, col: C, v: Option<Value>, row: R)
    requires b.Closed()
    ensures b.AddIf(col, v).Closed()
    ensures EvalSets(put, b.AddIf(col, v).sets, b.AddIf(col, v).args, row)
         == match EvalSets(put, b.sets, b.args, row)
            case None => None
            case Some(r) => if v.Some? then put(r, col, v.value) else Some(r)
  {
    if v.Some? {
      AddMeaning(put, b, col, v.value, row);
    }
  }

  // Which columns a SET list names, and that no column comes twice.
  lemma AddIfNames<C(!new)>(b: Builder<C>, col: C, v: Option<Value>)
    requires Distinct(b.sets) && !Names(b.sets, col)
    ensures var b' := b.AddIf(col, v);
      && Distinct(b'.sets)
      && (forall c :: Names(b'.sets, c) <==> Names(b.sets, c) || (v.Some? && c == col))
      && (b'.sets == [] <==> b.sets == [] && v.None?)
      && (forall k | 1 <= k <= |b.args| :: Arg(b'.args, k) == Arg(b.args, k))
  {
    if v.Some? {
      var b' := b.Add(col, v.value);
      forall c ensures Names(b'.sets, c) <==> Names(b.sets, c) || c == col {
        if Names(b.sets, c) {
          var i :| 0 <= i < |b.sets| && b.sets[i].col == c;
          assert b'.sets[i].col == c;
        }
        assert b'.sets[|b.sets|].col == col;
      }
    }
  }

  // A builder that has considered the columns ranked below `below`, and whose
  // items so far turn `row` into `value`.
  ghost predicate Progress<C(!new), R>(put: (R, C, Value) -> Option<R>, rank: C -> nat, b: Builder<C>, below: nat,
      row: R, value: Option<R>)
  {
    && b.Closed() && |b.args| >= 2 && Distinct(b.sets)
    && (forall c | Names(b.sets, c) :: rank(c) < below)
    && EvalSets(put, b.sets, b.args, row) == value
  }

  function PutIf<C, R>(put: (R, C, Value) -> Option<R>, value: Option<R>, col: C, v: Option<Value>): Option<R> {
    if value.Some? && v.Some? then put(value.value, col, v.value) else value
  }

  lemma Start<C(!new), R>(put: (R, C, Value) -> Option<R>, rank: C -> nat, args: seq<Value>, row: R)
    requires |args| >= 2
    ensures Progress(put, rank, Builder([], args), 0, row, Some(row))
  {
  }

  // One more column in rank order, present or not.
  lemma AddOne<C(!new), R>(put: (R, C, Value) -> Option<R>, rank: C -> nat, b: Builder<C>, col: C, v: Option<Value>,
      row: R, value: Option<R>)
    returns (b': Builder<C>)
    requires Progress(put, rank, b, rank(col), row, value)
    ensures b' == b.AddIf(col, v) && Progress(put, rank, b', rank(col) + 1, row, PutIf(put, value, col, v))
    ensures b'.sets == [] <==> b.sets == [] && v.None?
    ensures Names(b'.sets, col) <==> v.Some?
    ensures forall c | c != col :: Names(b'.sets, c) <==> Names(b.sets, c)
    ensures b'.args[..2] == b.args[..2]
  {
    b' := b.AddIf(col, v);
    AddIfMeaning(put, b, col, v, row);
    AddIfNames(b, col, v);
  }
}
