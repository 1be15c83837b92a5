/** Bit-packed syntax in general: any run of field writes is read back by the run of reads that matches it. */
module Schedules {
  import opened Core
  import opened Bits
  import opened Leb128

  datatype Field =
    | Unsigned(value: nat, width: nat)
    | Signed(number: int, width: nat)
    | Flag(bit: bool)
    | FixedLeb(leb: u32, size: u8)
    | MinimalLeb(leb: u32)

  function WField(w: BitSeq, f: Field): Result<BitSeq> {
    match f
    case Unsigned(value, width) => WU(w, value, width)
    case Signed(number, width) => WS(w, number, width)
    case Flag(bit) => Ok(WBool(w, bit))
    case FixedLeb(leb, size) => WLebFixed(w, leb, size)
    case MinimalLeb(leb) => Ok(WLeb(w, leb))
  }

  /** The read that matches `f`; it knows the kind and the width of the field, and not its value. */
  function RField(d: BitSeq, p: nat, f: Field): Result<(Field, nat)> {
    match f
    case Unsigned(_, width) =>
      var (value, q) :- RU(d, p, width);
      Ok((Unsigned(value, width), q))
    case Signed(_, width) =>
      var (number, q) :- RS(d, p, width);
      Ok((Signed(number, width), q))
    case Flag(_) =>
      var (bit, q) :- RBool(d, p);
      Ok((Flag(bit), q))
    case FixedLeb(_, size) =>
      var (leb, q) :- RLeb(d, p);
      Ok((FixedLeb(leb, size), q))
    case MinimalLeb(_) =>
      var (leb, q) :- RLeb(d, p);
      Ok((MinimalLeb(leb), q))
  }

  function WFields(w: BitSeq, fields: seq<Field>): Result<BitSeq>
    decreases |fields|
  {
    if fields == [] then Ok(w)
    else
      var w :- WField(w, fields[0]);
      WFields(w, fields[1..])
  }

  function RFields(d: BitSeq, p: nat, fields: seq<Field>): Result<(seq<Field>, nat)>
    decreases |fields|
  {
    if fields == [] then Ok(([], p))
    else
      var (f, p) :- RField(d, p, fields[0]);
      var (rest, p) :- RFields(d, p, fields[1..]);
      Ok(([f] + rest, p))
  }

  lemma FieldGrows(w: BitSeq, f: Field)
    requires WField(w, f).Ok?
    ensures w <= WField(w, f).value
  {
    hide BitsOf, LebBits;
  }

  lemma FieldReadsBack(w: BitSeq, f: Field, d: BitSeq) returns (w1: BitSeq)
    requires WField(w, f).Ok? && WField(w, f).value <= d
    ensures w1 == WField(w, f).value && RField(d, |w|, f) == Ok((f, |w1|))
  {
    hide WU, RU, WS, RS, WBool, RBool, WLebFixed, WLeb, RLeb;
    match f
    case Unsigned(value, width) => w1 := StepU(w, value, width, d);
    case Signed(number, width) => w1 := StepS(w, number, width, d);
    case Flag(bit) => w1 := StepBool(w, bit, d);
    case FixedLeb(leb, size) => w1 := StepLebFixed(w, leb, size, d);
    case MinimalLeb(leb) => w1 := StepLeb(w, leb, d);
  }

  lemma {:induction false} FieldsGrow(w: BitSeq, fields: seq<Field>)
    requires WFields(w, fields).Ok?
    ensures w <= WFields(w, fields).value
    decreases |fields|
  {
    hide WField;
    if fields != [] {
      FieldGrows(w, fields[0]);
      FieldsGrow(WField(w, fields[0]).value, fields[1..]);
    }
  }

  /**
    At any bit offset, whatever was written before and whatever follows: every value comes back, and the
    reads stop exactly where the writes did.
  */
  lemma {:induction false} ScheduleReadsBack(w: BitSeq, fields: seq<Field>, d: BitSeq)
    requires WFields(w, fields).Ok? && WFields(w, fields).value <= d
    ensures RFields(d, |w|, fields) == Ok((fields, |WFields(w, fields).value|))
    decreases |fields|
  {
    hide WField, RField;
    if fields != [] {
      var next := WField(w, fields[0]).value;
      FieldsGrow(next, fields[1..]);
      var _ := FieldReadsBack(w, fields[0], d);
      ScheduleReadsBack(next, fields[1..], d);
      assert [fields[0]] + fields[1..] == fields;
    }
  }
}
