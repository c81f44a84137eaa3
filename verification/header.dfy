/**
 The data shapes and classification macros of the fake MySQL client header:
 field type codes, the column descriptor, a result row, the
 size of the connection's error slot and the "unknown row count" sentinel.
 */
module Header {
  import opened Base
  import opened Flags

  // Field type codes of `enum enum_field_types`.
  const FIELD_TYPE_DECIMAL: nat := 0
  const FIELD_TYPE_TINY: nat := 1
  const FIELD_TYPE_SHORT: nat := 2
  const FIELD_TYPE_LONG: nat := 3
  const FIELD_TYPE_FLOAT: nat := 4
  const FIELD_TYPE_DOUBLE: nat := 5
  const FIELD_TYPE_NULL: nat := 6
  const FIELD_TYPE_TIMESTAMP: nat := 7
  const FIELD_TYPE_LONGLONG: nat := 8
  const FIELD_TYPE_INT24: nat := 9
  const FIELD_TYPE_DATE: nat := 10
  const FIELD_TYPE_TIME: nat := 11
  const FIELD_TYPE_DATETIME: nat := 12
  const FIELD_TYPE_YEAR: nat := 13
  const FIELD_TYPE_NEWDATE: nat := 14
  const FIELD_TYPE_ENUM: nat := 247
  const FIELD_TYPE_SET: nat := 248
  const FIELD_TYPE_TINY_BLOB: nat := 249
  const FIELD_TYPE_MEDIUM_BLOB: nat := 250
  const FIELD_TYPE_LONG_BLOB: nat := 251
  const FIELD_TYPE_BLOB: nat := 252
  const FIELD_TYPE_VAR_STRING: nat := 253
  const FIELD_TYPE_STRING: nat := 254

  /** The enumerators in declaration order: the first fifteen count up from
      0, and `FIELD_TYPE_ENUM` restarts the count at 247. */
  function FieldTypes(): (r: seq<nat>)
    ensures |r| == 23
    ensures forall i :: 0 <= i < 15 ==> r[i] == i
    ensures forall i :: 15 <= i < 23 ==> r[i] == 247 + (i - 15)
  {
    [FIELD_TYPE_DECIMAL, FIELD_TYPE_TINY, FIELD_TYPE_SHORT, FIELD_TYPE_LONG,
     FIELD_TYPE_FLOAT, FIELD_TYPE_DOUBLE, FIELD_TYPE_NULL, FIELD_TYPE_TIMESTAMP,
     FIELD_TYPE_LONGLONG, FIELD_TYPE_INT24, FIELD_TYPE_DATE, FIELD_TYPE_TIME,
     FIELD_TYPE_DATETIME, FIELD_TYPE_YEAR, FIELD_TYPE_NEWDATE,
     FIELD_TYPE_ENUM, FIELD_TYPE_SET, FIELD_TYPE_TINY_BLOB, FIELD_TYPE_MEDIUM_BLOB,
     FIELD_TYPE_LONG_BLOB, FIELD_TYPE_BLOB, FIELD_TYPE_VAR_STRING, FIELD_TYPE_STRING]
  }

  /** Size of the connection's `last_error` buffer, terminator included. */
  const MYSQL_ERRMSG_SIZE: nat := 200

  /** `MYSQL_COUNT_ERROR`: all bits of `my_ulonglong` set. */
  const MYSQL_COUNT_ERROR: nat := ULONG_MAX

  /** `MYSQL_FIELD`. Absent strings are NULL pointers; `ftype` is an
      `enum_field_types` code; the unsigned widths are kept as naturals. */
  datatype Field = Field(
    name: Option<string>,
    table: Option<string>,
    def: Option<string>,
    ftype: nat,
    length: nat,
    maxLength: nat,
    flags: bv32,
    decimals: nat)

  /** A descriptor as `calloc` leaves it: every pointer NULL, every number 0. */
  const ZeroField: Field := Field(None, None, None, FIELD_TYPE_DECIMAL, 0, 0, 0, 0)

  /** `MYSQL_ROW`: one entry per column, `None` for an SQL NULL. */
  type Row = seq<Option<string>>

  predicate IsNum(t: nat) { t <= FIELD_TYPE_INT24 || t == FIELD_TYPE_YEAR }
  predicate IsNumField(f: Field) { f.flags & NUM_FLAG != 0 }
  predicate InternalNumField(f: Field) {
    || (f.ftype <= FIELD_TYPE_INT24
        && (f.ftype != FIELD_TYPE_TIMESTAMP || f.length == 14 || f.length == 8))
    || f.ftype == FIELD_TYPE_YEAR
  }

  /** The numeric type codes are exactly DECIMAL through INT24, and YEAR. */
  lemma IsNumExactly(t: nat)
    ensures IsNum(t) <==> (t < 10 || t == 13)
    ensures IsNum(t) <==> exists i :: 0 <= i < |FieldTypes()| && FieldTypes()[i] == t && (i < 10 || i == 13)
  {
    var ts := FieldTypes();
    if IsNum(t) {
      assert ts[t] == t;
    }
  }

  /** None of the string-like codes from ENUM to STRING is numeric. */
  lemma StringLikeTypesAreNotNum(i: nat)
    requires 15 <= i < |FieldTypes()|
    ensures !IsNum(FieldTypes()[i])
  {
  }

  /** NUM_FLAG and GROUP_FLAG are the same bit, so a group field always looks
      numeric to clients, and the reverse. */
  lemma NumFlagIsGroupFlag(f: Field)
    ensures NUM_FLAG == GROUP_FLAG
    ensures IsNumField(f) <==> f.flags & GROUP_FLAG != 0
  {
  }

  /** A numeric-by-type descriptor is internally numeric unless it is a
      TIMESTAMP whose width is neither 14 nor 8. */
  lemma InternalNumFieldCases(f: Field)
    ensures InternalNumField(f) ==> IsNum(f.ftype)
    ensures IsNum(f.ftype) && f.ftype != FIELD_TYPE_TIMESTAMP ==> InternalNumField(f)
    ensures f.ftype == FIELD_TYPE_TIMESTAMP ==> (InternalNumField(f) <==> f.length in {8, 14})
  {
  }

  /** The "unknown affected rows" value `(my_ulonglong) -1` is MYSQL_COUNT_ERROR. */
  lemma MinusOneIsCountError()
    ensures ToULong(-1) == MYSQL_COUNT_ERROR
  {
  }
}
