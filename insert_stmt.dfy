/** Validation of an INSERT row against a table schema, and the statement it
    builds. The database and table metadata are reduced to an abstract
    lookup; casts go through the uninterpreted per-type behaviour. */
module InsertStmts {
  import opened Common
  import opened Values

  /** What validation reads of a column: its type, whether it admits NULL,
      and, for VECTORS, its declared number of components. */
  datatype FieldMeta = FieldMeta(attrType: AttrType, nullable: bool, vectorDim: int32)

  /** All fields of a table, the first `sysFieldNum` of which are hidden
      system fields. `field_num()` is `|fields|`. */
  datatype TableMeta = TableMeta(fields: seq<FieldMeta>, sysFieldNum: nat)

  datatype Table = Table(name: string, meta: TableMeta)

  /** The database, reduced to its table lookup. */
  datatype Db = Db(tables: map<string, Table>)

  /** `Db::find_table`. */
  function FindTable(db: Db, name: string): (t: Option<Table>)
    ensures t.Some? <==> name in db.tables
    ensures t.Some? ==> t.value == db.tables[name]
  {
    if name in db.tables then Some(db.tables[name]) else None
  }

  /** The user-visible fields, in order: value `i` belongs to column `i`. */
  function Columns(meta: TableMeta): (cols: seq<FieldMeta>)
    requires meta.sysFieldNum <= |meta.fields|
    ensures |cols| == |meta.fields| - meta.sysFieldNum
    ensures forall i :: 0 <= i < |cols| ==> cols[i] == meta.fields[meta.sysFieldNum + i]
  {
    meta.fields[meta.sysFieldNum..]
  }

  // ---------------------------------------------------------------------
  // The checks on one column

  /** The byte length a VECTORS column demands: `vector_dim * sizeof(float)`
      in `size_t` arithmetic. */
  function VectorBytes(f: FieldMeta): (n: nat) {
    SizeT(SizeT(f.vectorDim as int) * 4)
  }

  /** The value's length, read as `size_t`, matches the column's vector size. */
  predicate VectorLengthMatches(f: FieldMeta, v: Value) {
    SizeT(v.length as int) == VectorBytes(f)
  }

  /** A value the column admits: NULL only if the column is nullable, and the
      exact byte length if the column is a VECTORS column (also for NULL). */
  predicate Accepted(f: FieldMeta, v: Value) {
    (v.isNull ==> f.nullable) && (f.attrType == VECTORS ==> VectorLengthMatches(f, v))
  }

  /** A value with a type different from the column's and not NULL has to be cast. */
  predicate NeedsCast(f: FieldMeta, v: Value) {
    !v.isNull && v.attrType != f.attrType
  }

  /** The behaviour's cast of `v` to the column type, into a fresh `Value()`. */
  function CastForColumn(reg: Registry, f: FieldMeta, v: Value): (o: Outcome) {
    reg.typeInstance(v.attrType).castTo(v, f.attrType, NullValue())
  }

  /** `stored` is what the column's slot may hold after validation: the
      original value when no cast was needed, else the result of a cast that
      succeeded. */
  predicate Rewritten(reg: Registry, f: FieldMeta, original: Value, stored: Value) {
    if NeedsCast(f, original) then
      CastForColumn(reg, f, original).rc == SUCCESS && stored == CastForColumn(reg, f, original).result
    else
      stored == original
  }

  datatype ColumnOutcome = ColumnOutcome(rc: RC, value: Value)

  /** One iteration of the validation loop: cast on type mismatch, then the
      nullability check, then the vector size check. `value` is what the
      slot holds afterwards: a successful cast is stored before the later
      checks run. */
  function CheckColumn(reg: Registry, f: FieldMeta, v: Value): (c: ColumnOutcome)
    ensures c.rc in {SUCCESS, SCHEMA_FIELD_TYPE_MISMATCH, INVALID_ARGUMENT}
    ensures c.rc == SUCCESS <==> Rewritten(reg, f, v, c.value) && Accepted(f, c.value)
    ensures NeedsCast(f, v) && CastForColumn(reg, f, v).rc != SUCCESS ==>
      c == ColumnOutcome(SCHEMA_FIELD_TYPE_MISMATCH, v)
    ensures !(NeedsCast(f, v) && CastForColumn(reg, f, v).rc != SUCCESS) ==> Rewritten(reg, f, v, c.value)
    ensures c.rc != SUCCESS && Rewritten(reg, f, v, c.value) ==>
      c.rc == (if c.value.isNull && !f.nullable then SCHEMA_FIELD_TYPE_MISMATCH else INVALID_ARGUMENT)
  {
    var stored :=
      if !NeedsCast(f, v) then ColumnOutcome(SUCCESS, v)
      else if CastForColumn(reg, f, v).rc != SUCCESS then ColumnOutcome(SCHEMA_FIELD_TYPE_MISMATCH, v)
      else ColumnOutcome(SUCCESS, CastForColumn(reg, f, v).result);
    if stored.rc != SUCCESS then stored
    else if stored.value.isNull && !f.nullable then ColumnOutcome(SCHEMA_FIELD_TYPE_MISMATCH, stored.value)
    else if f.attrType == VECTORS && !VectorLengthMatches(f, stored.value) then ColumnOutcome(INVALID_ARGUMENT, stored.value)
    else ColumnOutcome(SUCCESS, stored.value)
  }

  // ---------------------------------------------------------------------
  // The loop over all columns

  datatype RowOutcome = RowOutcome(rc: RC, values: seq<Value>)

  /** The validation loop from value index `j` on: each column is checked
      and its slot updated in turn, and the first failure stops the loop with
      the later slots untouched. */
  function CheckFrom(reg: Registry, cols: seq<FieldMeta>, vs: seq<Value>, j: nat): (o: RowOutcome)
    requires |cols| == |vs| && j <= |vs|
    ensures |o.values| == |vs|
    decreases |vs| - j
  {
    if j == |vs| then RowOutcome(SUCCESS, vs)
    else
      var c := CheckColumn(reg, cols[j], vs[j]);
      if c.rc != SUCCESS then RowOutcome(c.rc, vs[j := c.value])
      else CheckFrom(reg, cols, vs[j := c.value], j + 1)
  }

  /** The loop keeps the slots before `j`, and stops
      only with SUCCESS or one of the two column errors. */
  lemma {:induction false} CheckFromShape(reg: Registry, cols: seq<FieldMeta>, vs: seq<Value>, j: nat)
    requires |cols| == |vs| && j <= |vs|
    ensures CheckFrom(reg, cols, vs, j).values[..j] == vs[..j]
    ensures CheckFrom(reg, cols, vs, j).rc in {SUCCESS, SCHEMA_FIELD_TYPE_MISMATCH, INVALID_ARGUMENT}
    decreases |vs| - j
  {
    if j < |vs| {
      var c := CheckColumn(reg, cols[j], vs[j]);
      if c.rc == SUCCESS {
        CheckFromShape(reg, cols, vs[j := c.value], j + 1);
      }
    }
  }

  /** On SUCCESS every column from `j` on holds an accepted value that is
      either the original or its successful cast. */
  lemma {:induction false} CheckFromSuccess(reg: Registry, cols: seq<FieldMeta>, vs: seq<Value>, j: nat)
    requires |cols| == |vs| && j <= |vs|
    requires CheckFrom(reg, cols, vs, j).rc == SUCCESS
    ensures forall k :: 0 <= k < j ==> CheckFrom(reg, cols, vs, j).values[k] == vs[k]
    ensures forall k :: j <= k < |vs| ==>
      Rewritten(reg, cols[k], vs[k], CheckFrom(reg, cols, vs, j).values[k]) &&
      Accepted(cols[k], CheckFrom(reg, cols, vs, j).values[k])
    decreases |vs| - j
  {
    if j < |vs| {
      var c := CheckColumn(reg, cols[j], vs[j]);
      CheckFromSuccess(reg, cols, vs[j := c.value], j + 1);
    }
  }

  /** Conversely, a row each of whose columns from `j` on passes its checks
      is accepted. */
  lemma {:induction false} CheckFromAllColumnsPass(reg: Registry, cols: seq<FieldMeta>, vs: seq<Value>, j: nat)
    requires |cols| == |vs| && j <= |vs|
    requires forall k :: j <= k < |vs| ==> CheckColumn(reg, cols[k], vs[k]).rc == SUCCESS
    ensures CheckFrom(reg, cols, vs, j).rc == SUCCESS
    decreases |vs| - j
  {
    if j < |vs| {
      var c := CheckColumn(reg, cols[j], vs[j]);
      var next := vs[j := c.value];
      assert forall k :: j + 1 <= k < |vs| ==> next[k] == vs[k];
      CheckFromAllColumnsPass(reg, cols, next, j + 1);
    }
  }

  /** On failure there is one column `k` that failed: every column in
      `[j, k)` passed and holds its accepted value, column `k` holds what its
      own check left there and its error is the row's, and every later slot
      is untouched. */
  lemma {:induction false} CheckFromFailure(reg: Registry, cols: seq<FieldMeta>, vs: seq<Value>, j: nat)
    returns (k: nat)
    requires |cols| == |vs| && j <= |vs|
    requires CheckFrom(reg, cols, vs, j).rc != SUCCESS
    ensures j <= k < |vs|
    ensures forall m :: 0 <= m < j ==> CheckFrom(reg, cols, vs, j).values[m] == vs[m]
    ensures forall m :: j <= m < k ==>
      Rewritten(reg, cols[m], vs[m], CheckFrom(reg, cols, vs, j).values[m]) &&
      Accepted(cols[m], CheckFrom(reg, cols, vs, j).values[m])
    ensures CheckColumn(reg, cols[k], vs[k]) ==
      ColumnOutcome(CheckFrom(reg, cols, vs, j).rc, CheckFrom(reg, cols, vs, j).values[k])
    ensures forall m :: k < m < |vs| ==> CheckFrom(reg, cols, vs, j).values[m] == vs[m]
    decreases |vs| - j
  {
    var c := CheckColumn(reg, cols[j], vs[j]);
    if c.rc != SUCCESS {
      k := j;
    } else {
      k := CheckFromFailure(reg, cols, vs[j := c.value], j + 1);
    }
  }

  // ---------------------------------------------------------------------
  // The whole of create

  datatype Created = Created(rc: RC, values: seq<Value>, table: Option<Table>)

  /** What `InsertStmt::create` does to a row `vs` of values: argument check,
      table lookup, value count, then the column loop. `table` is the table
      the statement records, present exactly on SUCCESS. */
  function CreateSpec(reg: Registry, db: Option<Db>, relationName: string, vs: seq<Value>): (c: Created) {
    if db.None? || |vs| == 0 then Created(INVALID_ARGUMENT, vs, None)
    else match FindTable(db.value, relationName)
      case None => Created(SCHEMA_TABLE_NOT_EXIST, vs, None)
      case Some(t) =>
        if |t.meta.fields| - t.meta.sysFieldNum != |vs| then Created(SCHEMA_FIELD_MISSING, vs, None)
        else
          var o := CheckFrom(reg, Columns(t.meta), vs, 0);
          Created(o.rc, o.values, if o.rc == SUCCESS then Some(t) else None)
  }

  /** The checks happen in order and each early exit leaves the row as it was. */
  lemma CreateSpecEarlyExits(reg: Registry, db: Option<Db>, relationName: string, vs: seq<Value>)
    ensures db.None? || |vs| == 0 ==> CreateSpec(reg, db, relationName, vs) == Created(INVALID_ARGUMENT, vs, None)
    ensures db.Some? && |vs| > 0 && relationName !in db.value.tables ==>
      CreateSpec(reg, db, relationName, vs) == Created(SCHEMA_TABLE_NOT_EXIST, vs, None)
    ensures (db.Some? && |vs| > 0 && relationName in db.value.tables &&
             |db.value.tables[relationName].meta.fields| - db.value.tables[relationName].meta.sysFieldNum != |vs|) ==>
      CreateSpec(reg, db, relationName, vs) == Created(SCHEMA_FIELD_MISSING, vs, None)
  {
  }

  /** `create` returns one of five codes and never changes the row's length;
      it succeeds exactly when the row passes every column check of an
      existing table with matching width, and then every slot holds an
      accepted value that is the original or its successful cast. */
  lemma CreateSpecOutcome(reg: Registry, db: Option<Db>, relationName: string, vs: seq<Value>)
    ensures CreateSpec(reg, db, relationName, vs).rc in
      {SUCCESS, INVALID_ARGUMENT, SCHEMA_TABLE_NOT_EXIST, SCHEMA_FIELD_MISSING, SCHEMA_FIELD_TYPE_MISMATCH}
    ensures |CreateSpec(reg, db, relationName, vs).values| == |vs|
    ensures CreateSpec(reg, db, relationName, vs).table.Some? <==> CreateSpec(reg, db, relationName, vs).rc == SUCCESS
    ensures CreateSpec(reg, db, relationName, vs).rc == SUCCESS ==>
      var t := db.value.tables[relationName];
      var cols := Columns(t.meta);
      var out := CreateSpec(reg, db, relationName, vs).values;
      CreateSpec(reg, db, relationName, vs).table == Some(t) && |cols| == |vs| &&
      forall k :: 0 <= k < |vs| ==> Rewritten(reg, cols[k], vs[k], out[k]) && Accepted(cols[k], out[k])
  {
    if db.Some? && |vs| > 0 && relationName in db.value.tables {
      var t := db.value.tables[relationName];
      if |t.meta.fields| - t.meta.sysFieldNum == |vs| {
        CheckFromShape(reg, Columns(t.meta), vs, 0);
        if CheckFrom(reg, Columns(t.meta), vs, 0).rc == SUCCESS {
          CheckFromSuccess(reg, Columns(t.meta), vs, 0);
        }
      }
    }
  }

  /** A behaviour whose successful casts always produce the requested type. */
  ghost predicate CastsHitTarget(reg: Registry) {
    forall v: Value, to: AttrType, p: Value {:trigger reg.typeInstance(v.attrType).castTo(v, to, p)} ::
      reg.typeInstance(v.attrType).castTo(v, to, p).rc == SUCCESS ==>
        reg.typeInstance(v.attrType).castTo(v, to, p).result.attrType == to
  }

  /** With such casts, validation is idempotent: validating an accepted row
      again accepts it and changes nothing. */
  lemma {:induction false} RevalidationIsIdentity(reg: Registry, cols: seq<FieldMeta>, vs: seq<Value>)
    requires |cols| == |vs|
    requires CastsHitTarget(reg)
    requires CheckFrom(reg, cols, vs, 0).rc == SUCCESS
    ensures CheckFrom(reg, cols, CheckFrom(reg, cols, vs, 0).values, 0) == CheckFrom(reg, cols, vs, 0)
  {
    var out := CheckFrom(reg, cols, vs, 0).values;
    CheckFromSuccess(reg, cols, vs, 0);
    forall k | 0 <= k < |out|
      ensures CheckColumn(reg, cols[k], out[k]) == ColumnOutcome(SUCCESS, out[k])
    {
      assert !NeedsCast(cols[k], out[k]);
    }
    UnchangedWhenAllPass(reg, cols, out, 0);
  }

  /** A row whose every column passes unchanged is returned as it is. */
  lemma {:induction false} UnchangedWhenAllPass(reg: Registry, cols: seq<FieldMeta>, vs: seq<Value>, j: nat)
    requires |cols| == |vs| && j <= |vs|
    requires forall k :: j <= k < |vs| ==> CheckColumn(reg, cols[k], vs[k]) == ColumnOutcome(SUCCESS, vs[k])
    ensures CheckFrom(reg, cols, vs, j) == RowOutcome(SUCCESS, vs)
    decreases |vs| - j
  {
    if j < |vs| {
      assert vs[j := vs[j]] == vs;
      UnchangedWhenAllPass(reg, cols, vs, j + 1);
    }
  }

  /** A present VECTORS value whose length counts components rather than
      bytes is refused by a VECTORS column of the same positive dimension. */
  lemma VectorLengthIsBytes(reg: Registry, f: FieldMeta, v: Value)
    requires f.attrType == VECTORS && f.vectorDim > 0
    requires v.attrType == VECTORS && !v.isNull && v.length == f.vectorDim
    ensures CheckColumn(reg, f, v) == ColumnOutcome(INVALID_ARGUMENT, v)
  {
  }

  // ---------------------------------------------------------------------
  // The statement

  /** An insert statement: the table, the caller's row (shared, not copied)
      and the number of values. */
  class InsertStmt {
    const table: Table
    const values: array<Value>
    const valueAmount: int

    constructor (table: Table, values: array<Value>, valueAmount: int)
      ensures this.table == table && this.values == values && this.valueAmount == valueAmount
    {
      this.table := table;
      this.values := values;
      this.valueAmount := valueAmount;
    }

    /** `InsertStmt::create`: validates the row in `values` against the
        named table, rewriting cast values in the caller's array, and on
        SUCCESS returns a statement over that same array. On failure no
        statement is made and the array is as the validation left it. */
    static method Create(reg: Registry, db: Option<Db>, relationName: string, values: array<Value>)
      returns (rc: RC, stmt: InsertStmt?)
      modifies values
      ensures rc == CreateSpec(reg, db, relationName, old(values[..])).rc
      ensures values[..] == CreateSpec(reg, db, relationName, old(values[..])).values
      ensures (stmt != null) <==> rc == SUCCESS
      ensures stmt != null ==>
        fresh(stmt) && Some(stmt.table) == CreateSpec(reg, db, relationName, old(values[..])).table &&
        stmt.values == values && stmt.valueAmount == values.Length
    {
      if db.None? || values.Length == 0 {
        return INVALID_ARGUMENT, null;
      }
      var found := FindTable(db.value, relationName);
      if found.None? {
        return SCHEMA_TABLE_NOT_EXIST, null;
      }
      var table := found.value;
      var meta := table.meta;
      var valueNum := values.Length;
      var fieldNum := |meta.fields| - meta.sysFieldNum;
      if fieldNum != valueNum {
        return SCHEMA_FIELD_MISSING, null;
      }
      ghost var cols := Columns(meta);
      for i := meta.sysFieldNum to |meta.fields|
        invariant CheckFrom(reg, cols, values[..], i - meta.sysFieldNum) == CheckFrom(reg, cols, old(values[..]), 0)
      {
        var idx := i - meta.sysFieldNum;
        var field := meta.fields[i];
        ghost var before := values[..];
        assert field == cols[idx];
        if !values[idx].isNull && values[idx].attrType != field.attrType {
          var castRc, toValue := CastTo(reg, values[idx], field.attrType, NullValue());
          if castRc != SUCCESS {
            return SCHEMA_FIELD_TYPE_MISMATCH, null;
          }
          values[idx] := toValue;
        }
        assert values[..] == before[idx := CheckColumn(reg, field, before[idx]).value];
        if values[idx].isNull && !field.nullable {
          return SCHEMA_FIELD_TYPE_MISMATCH, null;
        }
        if field.attrType == VECTORS && SizeT(values[idx].length as int) != SizeT(SizeT(field.vectorDim as int) * 4) {
          return INVALID_ARGUMENT, null;
        }
      }
      assert values[..] == CheckFrom(reg, cols, values[..], |cols|).values;
      stmt := new InsertStmt(table, values, valueNum);
      rc := SUCCESS;
    }
  }
}
