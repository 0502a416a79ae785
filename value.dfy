/** The typed value carrier of the engine and the static operations over it:
    result-type promotion, NULL handling per operation, and delegation to the
    per-type behaviour, which is left uninterpreted. */
module Values {
  import opened Common

  /** Type tags a value can carry (the header that declares them,
      common/type/attr_type.h, is not part of this model). */
  datatype AttrType = UNDEFINED | CHARS | INTS | FLOATS | DATES | BOOLEANS | VECTORS

  /** The payload union. Floats are kept as their 32-bit pattern: their
      meaning is not modelled. */
  datatype Payload =
    | IntPayload(i: int32)
    | FloatPayload(bits: bv32)
    | BoolPayload(b: bool)
    | CharsPayload(s: string)
    | VectorPayload(components: seq<bv32>)

  /** One column value: type tag, length (see data_length), null flag, payload. */
  datatype Value = Value(attrType: AttrType, length: int32, isNull: bool, payload: Payload)

  /** `Value()`: a NULL of undefined type with the default payload. */
  function NullValue(): (v: Value)
    ensures v.isNull && v.attrType == UNDEFINED && v.length == 0
  {
    Value(UNDEFINED, 0, true, IntPayload(0))
  }

  /** The number of bytes copied when the value is stored in a row: a CHARS
      value also carries its terminating zero byte. */
  function DataLength(v: Value): (n: int)
    ensures n >= v.length as int
    ensures n == v.length as int <==> v.attrType != CHARS
    ensures n - v.length as int <= 1
  {
    if v.attrType == CHARS then v.length as int + 1 else v.length as int
  }

  /** What a per-type operation hands back: its status and the new state of
      its `result` out-parameter. */
  datatype Outcome = Outcome(rc: RC, result: Value)

  /** The per-type behaviour object (`DataType`). Each operation receives the
      operands and the current state of `result` and returns the new one. */
  datatype DataType = DataType(
    add: (Value, Value, Value) -> Outcome,
    subtract: (Value, Value, Value) -> Outcome,
    multiply: (Value, Value, Value) -> Outcome,
    divide: (Value, Value, Value) -> Outcome,
    negative: (Value, Value) -> Outcome,
    max: (Value, Value, Value) -> Outcome,
    min: (Value, Value, Value) -> Outcome,
    castTo: (Value, AttrType, Value) -> Outcome)

  /** `DataType::type_instance`: one behaviour per type tag. */
  datatype Registry = Registry(typeInstance: AttrType -> DataType)

  // ---------------------------------------------------------------------
  // The promotion lattice, as an independent reference definition

  predicate IsNumeric(t: AttrType) {
    t == INTS || t == FLOATS || t == BOOLEANS
  }

  predicate IsSelfOnly(t: AttrType) {
    t == CHARS || t == DATES || t == VECTORS
  }

  /** Numeric operands promote to FLOATS when either is FLOATS and to INTS
      otherwise, except that two BOOLEANS have no result type; CHARS, DATES
      and VECTORS combine only with themselves; nothing else combines. */
  function Promote(l: AttrType, r: AttrType): (t: Option<AttrType>) {
    if IsNumeric(l) && IsNumeric(r) then
      if l == BOOLEANS && r == BOOLEANS then None
      else if l == FLOATS || r == FLOATS then Some(FLOATS)
      else Some(INTS)
    else if l == r && IsSelfOnly(l) then Some(l)
    else None
  }

  lemma PromoteSymmetric(l: AttrType, r: AttrType)
    ensures Promote(l, r) == Promote(r, l)
  {
  }

  /** A resolved type combines with itself into itself. */
  lemma PromoteClosed(l: AttrType, r: AttrType)
    ensures Promote(l, r).Some? ==> Promote(Promote(l, r).value, Promote(l, r).value) == Promote(l, r)
  {
  }

  /** The result type is always one of the operand types, and never
      UNDEFINED or BOOLEANS. */
  lemma PromoteToOperand(l: AttrType, r: AttrType)
    ensures Promote(l, r).Some? ==> Promote(l, r).value in {l, r}
    ensures Promote(l, r).Some? ==> Promote(l, r).value !in {UNDEFINED, BOOLEANS}
    ensures l == UNDEFINED || r == UNDEFINED ==> Promote(l, r).None?
  {
  }

  // ---------------------------------------------------------------------
  // Static operations of Value

  /** `set_result_type`: the closed switch over (left, right) type tags.
      On success only the type of `result` changes; on a mismatch `result`
      is returned untouched. */
  method SetResultType(left: Value, right: Value, prior: Value) returns (rc: RC, result: Value)
    ensures Promote(left.attrType, right.attrType).Some? ==>
      rc == SUCCESS && result == prior.(attrType := Promote(left.attrType, right.attrType).value)
    ensures Promote(left.attrType, right.attrType).None? ==>
      rc == VALUE_TYPE_MISMATCH && result == prior
  {
    result := prior;
    match left.attrType {
      case INTS =>
        match right.attrType {
          case INTS => result := result.(attrType := INTS);
          case BOOLEANS => result := result.(attrType := INTS);
          case FLOATS => result := result.(attrType := FLOATS);
          case _ => return VALUE_TYPE_MISMATCH, result;
        }
      case FLOATS =>
        match right.attrType {
          case INTS => result := result.(attrType := FLOATS);
          case BOOLEANS => result := result.(attrType := FLOATS);
          case FLOATS => result := result.(attrType := FLOATS);
          case _ => return VALUE_TYPE_MISMATCH, result;
        }
      case CHARS =>
        match right.attrType {
          case CHARS => result := result.(attrType := CHARS);
          case _ => return VALUE_TYPE_MISMATCH, result;
        }
      case BOOLEANS =>
        match right.attrType {
          case INTS => result := result.(attrType := INTS);
          case FLOATS => result := result.(attrType := FLOATS);
          case _ => return VALUE_TYPE_MISMATCH, result;
        }
      case DATES =>
        match right.attrType {
          case DATES => result := result.(attrType := DATES);
          case _ => return VALUE_TYPE_MISMATCH, result;
        }
      case VECTORS =>
        match right.attrType {
          case VECTORS => result := result.(attrType := VECTORS);
          case _ => return VALUE_TYPE_MISMATCH, result;
        }
      case _ => return VALUE_TYPE_MISMATCH, result;
    }
    rc := SUCCESS;
  }

  /** The NULL short-circuit of the arithmetic operations: `result` is only
      marked null (its type and payload stay as they were) and nothing is
      delegated. */
  predicate NullShortCircuit(prior: Value, rc: RC, result: Value) {
    rc == SUCCESS && result == prior.(isNull := true)
  }

  predicate BothPresent(left: Value, right: Value) {
    !left.isNull && !right.isNull
  }

  /** `add`. */
  method Add(reg: Registry, left: Value, right: Value, prior: Value) returns (rc: RC, result: Value)
    ensures !BothPresent(left, right) ==> NullShortCircuit(prior, rc, result)
    ensures BothPresent(left, right) && Promote(left.attrType, right.attrType).None? ==>
      rc == VALUE_TYPE_MISMATCH && result == prior
    ensures BothPresent(left, right) && Promote(left.attrType, right.attrType).Some? ==>
      var t := Promote(left.attrType, right.attrType).value;
      Outcome(rc, result) == reg.typeInstance(t).add(left, right, prior.(attrType := t))
  {
    if left.isNull || right.isNull {
      return SUCCESS, prior.(isNull := true);
    }
    rc, result := SetResultType(left, right, prior);
    if rc != SUCCESS {
      return;
    }
    var o := reg.typeInstance(result.attrType).add(left, right, result);
    rc, result := o.rc, o.result;
  }

  /** `subtract`. */
  method Subtract(reg: Registry, left: Value, right: Value, prior: Value) returns (rc: RC, result: Value)
    ensures !BothPresent(left, right) ==> NullShortCircuit(prior, rc, result)
    ensures BothPresent(left, right) && Promote(left.attrType, right.attrType).None? ==>
      rc == VALUE_TYPE_MISMATCH && result == prior
    ensures BothPresent(left, right) && Promote(left.attrType, right.attrType).Some? ==>
      var t := Promote(left.attrType, right.attrType).value;
      Outcome(rc, result) == reg.typeInstance(t).subtract(left, right, prior.(attrType := t))
  {
    if left.isNull || right.isNull {
      return SUCCESS, prior.(isNull := true);
    }
    rc, result := SetResultType(left, right, prior);
    if rc != SUCCESS {
      return;
    }
    var o := reg.typeInstance(result.attrType).subtract(left, right, result);
    rc, result := o.rc, o.result;
  }

  /** `multiply`. */
  method Multiply(reg: Registry, left: Value, right: Value, prior: Value) returns (rc: RC, result: Value)
    ensures !BothPresent(left, right) ==> NullShortCircuit(prior, rc, result)
    ensures BothPresent(left, right) && Promote(left.attrType, right.attrType).None? ==>
      rc == VALUE_TYPE_MISMATCH && result == prior
    ensures BothPresent(left, right) && Promote(left.attrType, right.attrType).Some? ==>
      var t := Promote(left.attrType, right.attrType).value;
      Outcome(rc, result) == reg.typeInstance(t).multiply(left, right, prior.(attrType := t))
  {
    if left.isNull || right.isNull {
      return SUCCESS, prior.(isNull := true);
    }
    rc, result := SetResultType(left, right, prior);
    if rc != SUCCESS {
      return;
    }
    var o := reg.typeInstance(result.attrType).multiply(left, right, result);
    rc, result := o.rc, o.result;
  }

  /** `divide`: like the other arithmetic operations, except that a resolved
      INTS type is raised to FLOATS before delegating, so every numeric
      division is dispatched to the FLOATS behaviour. */
  method Divide(reg: Registry, left: Value, right: Value, prior: Value) returns (rc: RC, result: Value)
    ensures !BothPresent(left, right) ==> NullShortCircuit(prior, rc, result)
    ensures BothPresent(left, right) && Promote(left.attrType, right.attrType).None? ==>
      rc == VALUE_TYPE_MISMATCH && result == prior
    ensures BothPresent(left, right) && IsNumeric(left.attrType) && Promote(left.attrType, right.attrType).Some? ==>
      Outcome(rc, result) == reg.typeInstance(FLOATS).divide(left, right, prior.(attrType := FLOATS))
    ensures BothPresent(left, right) && !IsNumeric(left.attrType) && Promote(left.attrType, right.attrType).Some? ==>
      var t := Promote(left.attrType, right.attrType).value;
      Outcome(rc, result) == reg.typeInstance(t).divide(left, right, prior.(attrType := t))
  {
    if left.isNull || right.isNull {
      return SUCCESS, prior.(isNull := true);
    }
    rc, result := SetResultType(left, right, prior);
    if rc != SUCCESS {
      return;
    }
    if result.attrType == INTS {
      result := result.(attrType := FLOATS);
    }
    var o := reg.typeInstance(result.attrType).divide(left, right, result);
    rc, result := o.rc, o.result;
  }

  /** `negative`: a null operand marks `result` null; otherwise the behaviour
      is chosen by the type `result` already carries, not by the operand's. */
  method Negative(reg: Registry, value: Value, prior: Value) returns (rc: RC, result: Value)
    ensures value.isNull ==> NullShortCircuit(prior, rc, result)
    ensures !value.isNull ==> Outcome(rc, result) == reg.typeInstance(prior.attrType).negative(value, prior)
  {
    if value.isNull {
      return SUCCESS, prior.(isNull := true);
    }
    var o := reg.typeInstance(prior.attrType).negative(value, prior);
    rc, result := o.rc, o.result;
  }

  /** `max`: a null left operand yields a copy of `right` (null or not), a
      null right operand a copy of `left`; only two present operands go
      through promotion and the behaviour. */
  method Max(reg: Registry, left: Value, right: Value, prior: Value) returns (rc: RC, result: Value)
    ensures left.isNull ==> rc == SUCCESS && result == right
    ensures !left.isNull && right.isNull ==> rc == SUCCESS && result == left
    ensures BothPresent(left, right) && Promote(left.attrType, right.attrType).None? ==>
      rc == VALUE_TYPE_MISMATCH && result == prior
    ensures BothPresent(left, right) && Promote(left.attrType, right.attrType).Some? ==>
      var t := Promote(left.attrType, right.attrType).value;
      Outcome(rc, result) == reg.typeInstance(t).max(left, right, prior.(attrType := t))
  {
    if left.isNull {
      return SUCCESS, right;
    }
    if right.isNull {
      return SUCCESS, left;
    }
    rc, result := SetResultType(left, right, prior);
    if rc != SUCCESS {
      return;
    }
    var o := reg.typeInstance(result.attrType).max(left, right, result);
    rc, result := o.rc, o.result;
  }

  /** `min`: the same NULL rules as `max`. */
  method Min(reg: Registry, left: Value, right: Value, prior: Value) returns (rc: RC, result: Value)
    ensures left.isNull ==> rc == SUCCESS && result == right
    ensures !left.isNull && right.isNull ==> rc == SUCCESS && result == left
    ensures BothPresent(left, right) && Promote(left.attrType, right.attrType).None? ==>
      rc == VALUE_TYPE_MISMATCH && result == prior
    ensures BothPresent(left, right) && Promote(left.attrType, right.attrType).Some? ==>
      var t := Promote(left.attrType, right.attrType).value;
      Outcome(rc, result) == reg.typeInstance(t).min(left, right, prior.(attrType := t))
  {
    if left.isNull {
      return SUCCESS, right;
    }
    if right.isNull {
      return SUCCESS, left;
    }
    rc, result := SetResultType(left, right, prior);
    if rc != SUCCESS {
      return;
    }
    var o := reg.typeInstance(result.attrType).min(left, right, result);
    rc, result := o.rc, o.result;
  }

  /** `cast_to`: a NULL of any type becomes a NULL of `toType` (length and
      payload of `result` kept); a present value is converted by the
      behaviour of its own type. */
  method CastTo(reg: Registry, value: Value, toType: AttrType, prior: Value) returns (rc: RC, result: Value)
    ensures value.isNull ==> rc == SUCCESS && result == prior.(attrType := toType, isNull := true)
    ensures !value.isNull ==> Outcome(rc, result) == reg.typeInstance(value.attrType).castTo(value, toType, prior)
  {
    if value.isNull {
      result := prior.(attrType := toType);
      result := result.(isNull := true);
      return SUCCESS, result;
    }
    var o := reg.typeInstance(value.attrType).castTo(value, toType, prior);
    rc, result := o.rc, o.result;
  }
}
