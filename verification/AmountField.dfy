/**
 The amount entry field (AmountSpinBox in hub-qt/bitcoinamountfield.cpp): the amount lives only in the text, in the
 current unit, and every operation goes through printing and parsing it.
 */
module AmountField {
  import opened Decimals
  import opened BitcoinUnits
  import opened Options

  datatype Field = Field(unit: int, step: int, text: string)

  datatype Reading = Reading(amount: int, valid: bool)

  /** value(): zero and invalid unless the text denotes an amount within the money range. */
  function Read(f: Field): Reading {
    match Parse(f.unit, f.text)
    case Some(v) => if v < 0 || v > MAX_MONEY then Reading(0, false) else Reading(v, true)
    case None => Reading(0, false)
  }

  function SetValue(f: Field, v: int): Field { f.(text := Format(f.unit, v, false, SeparatorAlways)) }

  function Fixup(f: Field): Field { if Read(f).valid then SetValue(f, Read(f).amount) else f }

  function SetDisplayUnit(f: Field, unit: int): Field {
    var g := f.(unit := unit);
    if Read(f).valid then SetValue(g, Read(f).amount) else g.(text := "")
  }

  function Clamp(v: int): int { if v < 0 then 0 else if v > MAX_MONEY then MAX_MONEY else v }

  function StepBy(f: Field, steps: int): Field { SetValue(f, Clamp(Read(f).amount + steps * f.step)) }

  datatype Op = ChangeUnit(unit: int) | Fix | Step(steps: int)

  function Do(f: Field, op: Op): Field {
    match op
    case ChangeUnit(unit) => SetDisplayUnit(f, unit)
    case Fix => Fixup(f)
    case Step(steps) => StepBy(f, steps)
  }

  function DoAll(f: Field, ops: seq<Op>): Field
    decreases ops
  {
    if ops == [] then f else DoAll(Do(f, ops[0]), ops[1..])
  }

  /** What the operations should do to the amount, without any text. */
  function AmountAfter(v: int, step: int, ops: seq<Op>): int
    decreases ops
  {
    if ops == [] then v
    else
      var t := if ops[0].Step? then v + ops[0].steps * step else v;
      AmountAfter(if t < 0 then 0 else if t > 2100000000000000 then 2100000000000000 else t, step, ops[1..])
  }

  predicate ValidUnits(ops: seq<Op>) { forall i :: 0 <= i < |ops| && ops[i].ChangeUnit? ==> Valid(ops[i].unit) }

  predicate InRange(v: int) { 0 <= v <= 2100000000000000 }

  /** The field holds an amount exactly when its text denotes one from nothing to 21 million coins. */
  lemma {:induction false} ReadIff(f: Field, v: int)
    ensures Read(f) == Reading(v, true) <==> Parse(f.unit, f.text) == Some(v) && 0 <= v <= 2100000000000000
    ensures !Read(f).valid ==> Read(f).amount == 0
  {
  }

  /** An amount that has been set can be read back. */
  lemma {:induction false} SetThenRead(f: Field, v: int)
    requires Valid(f.unit) && InRange(v)
    ensures Read(SetValue(f, v)) == Reading(v, true)
  {
    RoundTrip(f.unit, v, false, SeparatorAlways);
    Pow18();
  }

  /** Stepping changes the amount by so many steps, from zero if there was none, and stays within the money range. */
  lemma {:induction false} StepMovesTheAmount(f: Field, steps: int)
    requires Valid(f.unit)
    ensures var t := Read(f).amount + steps * f.step;
            && Read(StepBy(f, steps)).valid
            && (0 <= t <= 2100000000000000 ==> Read(StepBy(f, steps)).amount == t)
            && (t < 0 ==> Read(StepBy(f, steps)).amount == 0)
            && (t > 2100000000000000 ==> Read(StepBy(f, steps)).amount == 2100000000000000)
  {
    StepTo(f, Read(f).amount + steps * f.step);
  }

  lemma {:induction false} StepTo(f: Field, t: int)
    requires Valid(f.unit)
    ensures var r := Read(SetValue(f, Clamp(t)));
            && r.valid && (0 <= t <= 2100000000000000 ==> r.amount == t)
            && (t < 0 ==> r.amount == 0) && (t > 2100000000000000 ==> r.amount == 2100000000000000)
  {
    SetThenRead(f, Clamp(t));
  }

  /** Tidying writes the text that its amount has in this unit, and leaves any other text alone. */
  lemma {:induction false} FixupIsCanonical(f: Field, g: Field)
    requires f.unit == g.unit && f.step == g.step && Read(f) == Read(g) && Read(f).valid
    ensures Fixup(f) == Fixup(g) == f.(text := Format(f.unit, Read(f).amount, false, SeparatorAlways))
    ensures Valid(f.unit) ==> Fixup(Fixup(f)) == Fixup(f)
  {
    if Valid(f.unit) {
      ReadIff(f, Read(f).amount);
      SetThenRead(f, Read(f).amount);
    }
  }

  /** A text that is no amount is kept by tidying and stepping from zero, but cleared by a change of the unit. */
  lemma {:induction false} OtherTexts(f: Field, unit: int, steps: int)
    requires !Read(f).valid
    ensures Fixup(f) == f && SetDisplayUnit(f, unit) == Field(unit, f.step, "")
    ensures StepBy(f, steps) == StepBy(f.(text := ""), steps)
  {
  }

  lemma {:induction false} DoKeepsAmount(f: Field, op: Op, v: int)
    requires Valid(f.unit) && Read(f) == Reading(v, true) && (op.ChangeUnit? ==> Valid(op.unit))
    ensures Valid(Do(f, op).unit) && Do(f, op).step == f.step
    ensures Read(Do(f, op)) == Reading(AmountAfter(v, f.step, [op]), true)
  {
    ReadIff(f, v);
    assert [op][1..] == [];
    match op {
      case ChangeUnit(unit) => SetThenRead(f.(unit := unit), v);
      case Fix => SetThenRead(f, v);
      case Step(steps) => StepMovesTheAmount(f, steps);
    }
  }

  /** Any run of unit changes, fixups and steps leaves a valid amount that is exactly what the steps alone make of
      it: changing the unit and tidying the text never change the amount. */
  lemma {:induction false} RunsTrackTheAmount(f: Field, v: int, ops: seq<Op>)
    requires Valid(f.unit) && Read(f) == Reading(v, true) && ValidUnits(ops)
    ensures Read(DoAll(f, ops)) == Reading(AmountAfter(v, f.step, ops), true)
    decreases ops
  {
    if ops != [] {
      DoKeepsAmount(f, ops[0], v);
      assert forall i :: 0 <= i < |ops| - 1 ==> ops[1..][i] == ops[i + 1];
      assert [ops[0]][1..] == [];
      RunsTrackTheAmount(Do(f, ops[0]), AmountAfter(v, f.step, [ops[0]]), ops[1..]);
    }
  }

  /** Starting from a set amount, the field stays within the money range over every run. */
  lemma {:induction false} RunsStayInRange(f: Field, v: int, ops: seq<Op>)
    requires Valid(f.unit) && InRange(v) && ValidUnits(ops)
    ensures Read(DoAll(SetValue(f, v), ops)).valid && InRange(Read(DoAll(SetValue(f, v), ops)).amount)
    ensures (forall i :: 0 <= i < |ops| ==> !ops[i].Step?) ==> Read(DoAll(SetValue(f, v), ops)).amount == v
  {
    SetThenRead(f, v);
    RunsTrackTheAmount(SetValue(f, v), v, ops);
    if forall i :: 0 <= i < |ops| ==> !ops[i].Step? { NoStepsNoChange(v, f.step, ops); }
  }

  lemma {:induction false} NoStepsNoChange(v: int, step: int, ops: seq<Op>)
    requires InRange(v) && forall i :: 0 <= i < |ops| ==> !ops[i].Step?
    ensures AmountAfter(v, step, ops) == v
    decreases ops
  {
    if ops != [] { NoStepsNoChange(v, step, ops[1..]); }
  }

  /** Changing the unit keeps a valid amount exactly when the new unit is a known one. */
  lemma {:induction false} UnitChangeKeepsAmountIffKnown(f: Field, unit: int)
    requires Valid(f.unit) && Read(f).valid
    ensures Read(SetDisplayUnit(f, unit)) == Read(f) <==> Valid(unit)
  {
    if Valid(unit) { DoKeepsAmount(f, ChangeUnit(unit), Read(f).amount); }
  }

  class AmountSpinBox {
    var currentUnit: int
    var singleStep: int
    var text: string

    ghost function Contents(): Field
      reads this
    {
      Field(currentUnit, singleStep, text)
    }

    constructor ()
      ensures Contents() == Field(BTC, 100000, "")
    {
      currentUnit, singleStep, text := BTC, 100000, "";
    }

    method Value() returns (amount: int, valid: bool)
      ensures Reading(amount, valid) == Read(Contents())
    {
      amount, valid := 0, false;
      var parsed := Parse(currentUnit, text);
      if parsed.Some? {
        valid := true;
        if parsed.value < 0 || parsed.value > MAX_MONEY {
          valid := false;
        }
      }
      if valid { amount := parsed.value; }
    }

    method Set(amount: int)
      modifies this`text
      ensures Contents() == SetValue(old(Contents()), amount)
    {
      text := FormatAmount(currentUnit, amount, false, SeparatorAlways);
    }

    method FixText()
      modifies this`text
      ensures Contents() == Fixup(old(Contents()))
    {
      var amount, valid := Value();
      if valid {
        text := FormatAmount(currentUnit, amount, false, SeparatorAlways);
      }
    }

    method StepAmount(steps: int)
      modifies this`text
      ensures Contents() == StepBy(old(Contents()), steps)
    {
      var amount, valid := Value();
      amount := amount + steps * singleStep;
      amount := if amount < 0 then 0 else amount;
      amount := if amount > MAX_MONEY then MAX_MONEY else amount;
      Set(amount);
    }

    method ChangeDisplayUnit(unit: int)
      modifies this`currentUnit, this`text
      ensures Contents() == SetDisplayUnit(old(Contents()), unit)
    {
      var amount, valid := Value();
      currentUnit := unit;
      if valid {
        Set(amount);
      } else {
        text := "";
      }
    }
  }
}
