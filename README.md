# miniob value engine and INSERT validation, in Dafny

This project models two pieces of the miniob database engine's observer:

- the **value carrier** `Value` (`src/observer/common/value.h`): a column value
  with a type tag, a length, a null flag and a payload, and its static
  operations. `set_result_type` resolves the result type of a binary operation
  from the operand types (the promotion lattice). `add`, `subtract`,
  `multiply`, `divide`, `negative`, `max`, `min` and `cast_to` apply their own
  NULL rule and then hand the work to the per-type behaviour object
  (`DataType::type_instance(t)`). `data_length` gives the number of bytes a
  value occupies in a row.
- **INSERT validation** (`InsertStmt::create` in
  `src/observer/sql/stmt/insert_stmt.cpp`): it checks a row of values against
  a table schema, casting mistyped values in the caller's array, and builds the
  statement.

Modules:

- `Common` (`common.dfy`): the return codes, `Option`, the C++ `int` width
  (`int32`) and the `size_t` conversion (`SizeT`, modulo 2^64).
- `Values` (`value.dfy`): `Value` as a datatype. The behaviour objects are a
  `Registry`, a datatype of function values passed to every operation: they
  are uninterpreted, and no contract says anything about their numeric
  results. `Promote` is an independent definition of the promotion lattice
  (numeric promotion plus "CHARS, DATES and VECTORS only with themselves").
  `SetResultType`'s body is the source's closed switch, and its contract ties
  the switch to `Promote`. The C++ operations write into an out-parameter
  `Value &result`. Each is a method that takes the prior state of `result`
  (`prior`) and returns the status and the new state. So "result is left
  untouched" reads `result == prior`.
- `InsertStmts` (`insert_stmt.dfy`): the schema as fields
  `{type, nullable, vector_dim}` plus a count of leading system fields, and the
  database as a map from table name to table. `CheckColumn` is one iteration of
  the validation loop and `CheckFrom` is the loop. `CreateSpec` is the whole of
  `create` on the row's contents. `InsertStmt.Create` is the imperative method
  over the caller's `array<Value>`: it updates the array in place, and its
  contract ties the returned code and the new array contents to `CreateSpec`.
  The lemmas beside it state what success and failure mean.

Notes on the source:

- `relation_name` is a `std::string` and `c_str()` never yields a null
  pointer, so the test `nullptr == table_name` (insert_stmt.cpp:27) cannot
  fire. The model takes the name as a `string`.
- Casts inside validation write into a fresh `Value to_value`, i.e. `Value()`.
  Its constructor is only declared in value.h (value.cpp is not part of this
  model); following its comment, it is modelled as a NULL of type UNDEFINED
  (`NullValue`). `set_is_null` is also only declared. It is modelled as
  setting the null flag and nothing else.
- value.h:280 says that for vector values `length_` is the number of
  components. insert_stmt.cpp:70 compares `length()` with
  `vector_dim * sizeof(float)`, i.e. with a byte count. The model follows the
  insert code. `VectorLengthIsBytes` states the consequence: a vector whose
  length counted components would be refused. `set_vector` is not part of
  this model, so which reading holds at run time is not decided here.

## Model

| member | source | states |
|---|---|---|
| `Values.NullValue` | src/observer/common/value.h:39-40 | `Value()` is a NULL of UNDEFINED type with length 0 |
| `Values.DataLength` | src/observer/common/value.h:243-251 | the row size is at least `length`; it is exactly `length` iff the type is not CHARS, and at most one byte more (the terminator) |
| `Values.SetResultType` | src/observer/common/value.h:65-112 | the switch agrees with the lattice `Promote` on all 49 type pairs; on success only `result`'s type changes, to the promoted type; on a mismatch it returns VALUE_TYPE_MISMATCH and `result` is unchanged |
| `Values.PromoteSymmetric` | src/observer/common/value.h:65-112 | the promotion table is symmetric in its two operands |
| `Values.PromoteClosed` | src/observer/common/value.h:65-112 | a resolved type combined with itself resolves to itself |
| `Values.PromoteToOperand` | src/observer/common/value.h:65-112 | a resolved type is one of the operand types and never UNDEFINED or BOOLEANS; an UNDEFINED operand always mismatches |
| `Values.Add` | src/observer/common/value.h:117-128 | a null operand marks `result` null with SUCCESS and leaves its type and payload unchanged, without delegating; a type mismatch returns VALUE_TYPE_MISMATCH with `result` untouched; otherwise the outcome is the promoted type's `add` on `result` retyped |
| `Values.Subtract` | src/observer/common/value.h:130-141 | as `Add`, delegating to `subtract` |
| `Values.Multiply` | src/observer/common/value.h:143-154 | as `Add`, delegating to `multiply` |
| `Values.Divide` | src/observer/common/value.h:156-171 | as `Add`, except that every numeric division (resolved INTS or FLOATS) is dispatched to the FLOATS behaviour with `result` typed FLOATS; CHARS, DATES and VECTORS keep their own type |
| `Values.Negative` | src/observer/common/value.h:173-180 | a null operand marks `result` null with SUCCESS; otherwise the behaviour is chosen by `result`'s existing type, not the operand's |
| `Values.Max` | src/observer/common/value.h:182-197 | a null left operand yields `right` (even a null one), else a null right operand yields `left`, both with SUCCESS; two present operands mismatch with `result` untouched or go to the promoted type's `max` |
| `Values.Min` | src/observer/common/value.h:199-214 | the same NULL and mismatch rules as `Max`, delegating to `min` |
| `Values.CastTo` | src/observer/common/value.h:216-226 | a NULL of any type becomes a NULL of the target type with SUCCESS, keeping `result`'s length and payload; a present value is converted by the behaviour of its own type |
| `Common.SizeT` | src/observer/sql/stmt/insert_stmt.cpp:70 | `static_cast<size_t>` keeps a non-negative `int` and adds 2^64 to a negative one |
| `InsertStmts.CheckColumn` | src/observer/sql/stmt/insert_stmt.cpp:53-73 | a column passes iff its slot holds the original value (null or already of the field type) or a successful cast of it, and that value is NULL only in a nullable column and, in a VECTORS column, has the exact byte length; a failed cast gives SCHEMA_FIELD_TYPE_MISMATCH with the slot unchanged; a NULL in a non-nullable column gives SCHEMA_FIELD_TYPE_MISMATCH; a wrong vector length gives INVALID_ARGUMENT |
| `InsertStmts.CheckFrom` | src/observer/sql/stmt/insert_stmt.cpp:52-74 | the loop never changes the number of values |
| `InsertStmts.CheckFromShape` | src/observer/sql/stmt/insert_stmt.cpp:52-74 | the loop leaves the slots before its start untouched and ends with SUCCESS, SCHEMA_FIELD_TYPE_MISMATCH or INVALID_ARGUMENT |
| `InsertStmts.CheckFromSuccess` | src/observer/sql/stmt/insert_stmt.cpp:52-74 | on SUCCESS every checked column holds an accepted value that is its original or its successful cast |
| `InsertStmts.CheckFromAllColumnsPass` | src/observer/sql/stmt/insert_stmt.cpp:52-74 | conversely, when every column passes its own check, the loop succeeds |
| `InsertStmts.CheckFromFailure` | src/observer/sql/stmt/insert_stmt.cpp:52-74 | on failure there is a column `k` whose own error is the loop's; the columns before it passed and may already be rewritten, slot `k` holds what its check left, and every later slot is untouched |
| `InsertStmts.UnchangedWhenAllPass` | src/observer/sql/stmt/insert_stmt.cpp:52-74 | a row whose every column passes without a cast comes back as it was |
| `InsertStmts.RevalidationIsIdentity` | src/observer/sql/stmt/insert_stmt.cpp:54-63 | when successful casts produce the requested type, validating an accepted row again succeeds and changes nothing |
| `InsertStmts.VectorLengthIsBytes` | src/observer/sql/stmt/insert_stmt.cpp:69-73 | a present VECTORS value whose length equals the column's positive dimension is refused with INVALID_ARGUMENT |
| `InsertStmts.CreateSpecEarlyExits` | src/observer/sql/stmt/insert_stmt.cpp:27-48 | a missing database or an empty row gives INVALID_ARGUMENT, then an unknown table gives SCHEMA_TABLE_NOT_EXIST, then a value count other than `field_num - sys_field_num` gives SCHEMA_FIELD_MISSING; in all three cases the row is unchanged and no table is recorded |
| `InsertStmts.CreateSpecOutcome` | src/observer/sql/stmt/insert_stmt.cpp:24-78 | `create` returns one of five codes and keeps the row's length; a table is recorded exactly on SUCCESS, and then it is the named table and every value is accepted by its column and is its original or its successful cast |
| `InsertStmts.InsertStmt.constructor` | src/observer/sql/stmt/insert_stmt.cpp:20-22 | the statement records the table, the caller's value array itself (not a copy) and the value count |
| `InsertStmts.InsertStmt.Create` | src/observer/sql/stmt/insert_stmt.cpp:24-79 | the code returned and the array's new contents are those of `CreateSpec` on the old contents; a fresh statement over the same array, the looked-up table and `values.Length` is made exactly on SUCCESS |

## Left out

- The per-type behaviours (`IntegerType`, `FloatType`, `CharType`, ...): their code is not part of this model. They are uninterpreted function values, and nothing is claimed about the numbers they compute.
- Value construction from literals and raw bytes, the setters and getters, `to_string`, `compare`, `from_date`, `from_vector` and `is_date_valid`: they are only declared in value.h.
- Copy and move construction and assignment, `reset` and the destructor, `own_data_`: heap ownership of the payload. A datatype value has no aliasing, so `result = right` is plain value equality here.
- An out-parameter `result` that is the same object as an operand (`Value::add(a, b, a)`) is not modelled: there `set_type`, and `divide`'s upgrade to FLOATS, retype the operand before the behaviour runs, whereas the model always hands the behaviour the original operands and a separate prior `result`.
- Floating-point arithmetic and the meaning of vector payloads: floats are kept as 32-bit patterns and only type tags matter.
- The blob store in src/observer/storage/common/text_utils.cpp: file I/O, outside this model.
- `LOG_WARN` calls in `create`: logging only.
- `Db`, `Table` and `TableMeta` internals: reduced to a name-to-table map (`FindTable`) and a field list with a system-field count (`Columns`, the fields after the system fields); these two helpers are the abstract schema lookup, not modelled behaviour. The type of `vector_dim` is in field_meta.h, which is not part of this model; it is taken to be an `int`.
- Values.DataLength: does not model `int` overflow of `length_ + 1` at the largest `int`, which is undefined behaviour in C++.
- InsertStmts.InsertStmt.Create: returns `null` on failure, where the source leaves the caller's `stmt` out-parameter untouched.
- InsertStmts.InsertStmt.Create: does not model `static_cast<int>` of a value vector longer than the largest `int`; the value count is the array's length.
- The attribute type enum has the seven tags the core names. Any further tag in attr_type.h would fall into the same default branches as UNDEFINED.
