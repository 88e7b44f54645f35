/** Shared ownership of an aircraft: the manage-owners form
    (app/aircraft/co_owner_form_parsing.py) and the save that replaces the
    owner set (manage_owners in app/aircraft/routes.py). */
module Owners {
  import opened Options

  // ---------------------------------------------------------------- Form fields, as Python parses them

  /** A finite decimal.Decimal: coefficient times ten to the exponent. */
  datatype Decimal = Decimal(coefficient: int, exponent: int)
  {
    function Value(): real {
      if exponent >= 0 then coefficient as real * Pow10(exponent) else coefficient as real / Pow10(-exponent)
    }
  }

  function Pow10(n: nat): (p: real)
    ensures p > 0.0
  {
    if n == 0 then 1.0 else 10.0 * Pow10(n - 1)
  }

  datatype IdField = BlankId | BadId | Id(id: int)
  datatype NumberField = Blank | NotANumber | Number(value: Decimal)
  datatype DateField = BlankDate | BadDate | Date(day: int)

  datatype OwnersForm = OwnersForm(
    userIds: seq<IdField>,
    shares: seq<NumberField>,
    buyIns: seq<NumberField>,
    remove: set<int>,
    billingStart: DateField,
    hourlyRate: NumberField,
    reserveHourly: NumberField,
    reserveMonthly: NumberField)

  datatype FormError =
    | InvalidOwner | DuplicateOwner | InvalidShare | InvalidBuyIn | SharesNotWhole
    | InvalidBillingStart | InvalidRate | InvalidReserveHourly | InvalidReserveMonthly | BothReserves

  datatype Row = Row(userId: int, share: Decimal, buyIn: Decimal)

  const ZERO := Decimal(0, 0)

  // ---------------------------------------------------------------- One row

  /** Lists shorter than the user list read as blank. */
  function FieldAt(fields: seq<NumberField>, i: nat): NumberField {
    if i < |fields| then fields[i] else Blank
  }

  predicate Skipped(form: OwnersForm, i: nat)
    requires i < |form.userIds|
  {
    form.userIds[i].BlankId? || i in form.remove
  }

  predicate ShareOk(f: NumberField) {
    f.Number? && 0.0 < f.value.Value() <= 100.0 && f.value.exponent >= -2
  }

  predicate BuyInOk(f: NumberField) {
    f.Blank? || (f.Number? && f.value.Value() >= 0.0)
  }

  predicate RowOk(form: OwnersForm, i: nat)
    requires i < |form.userIds|
  {
    form.userIds[i].Id? && ShareOk(FieldAt(form.shares, i)) && BuyInOk(FieldAt(form.buyIns, i))
  }

  function RowAt(form: OwnersForm, i: nat): Row
    requires i < |form.userIds| && RowOk(form, i)
  {
    var buyIn := FieldAt(form.buyIns, i);
    Row(form.userIds[i].id, FieldAt(form.shares, i).value, if buyIn.Number? then buyIn.value else ZERO)
  }

  // ---------------------------------------------------------------- The whole form

  ghost predicate RowsOk(form: OwnersForm, n: nat)
    requires n <= |form.userIds|
  {
    forall i :: 0 <= i < n && !Skipped(form, i) ==> RowOk(form, i)
  }

  /** The rows the form asks for, in order. */
  ghost function RowsOf(form: OwnersForm, n: nat): seq<Row>
    requires n <= |form.userIds| && RowsOk(form, n)
  {
    if n == 0 then []
    else RowsOf(form, n - 1) + if Skipped(form, n - 1) then [] else [RowAt(form, n - 1)]
  }

  ghost predicate DistinctUsers(rows: seq<Row>) {
    forall i, j :: 0 <= i < j < |rows| ==> rows[i].userId != rows[j].userId
  }

  function Users(rows: seq<Row>): set<int> {
    set k | 0 <= k < |rows| :: rows[k].userId
  }

  function TotalShare(rows: seq<Row>): real {
    if rows == [] then 0.0 else TotalShare(rows[..|rows| - 1]) + rows[|rows| - 1].share.Value()
  }

  predicate AmountOk(f: NumberField) {
    BuyInOk(f)
  }

  /** What a form must be for the save to happen. */
  ghost predicate FormOk(form: OwnersForm) {
    && RowsOk(form, |form.userIds|)
    && DistinctUsers(RowsOf(form, |form.userIds|))
    && (RowsOf(form, |form.userIds|) != [] ==> TotalShare(RowsOf(form, |form.userIds|)) == 100.0)
    && !form.billingStart.BadDate?
    && AmountOk(form.hourlyRate) && AmountOk(form.reserveHourly) && AmountOk(form.reserveMonthly)
    && (form.reserveHourly.Blank? || form.reserveMonthly.Blank?)
  }

  function Amount(f: NumberField): Option<Decimal> {
    if f.Number? && f.value.Value() >= 0.0 then Some(f.value) else None
  }

  /** The row loop's verdict so far: no error means every row read is wanted and kept. */
  ghost predicate RowsRead(form: OwnersForm, n: nat, rows: seq<Row>, errors: seq<FormError>)
    requires n <= |form.userIds|
  {
    && DistinctUsers(rows)
    && (errors == [] ==> RowsOk(form, n) && rows == RowsOf(form, n))
    && (RowsOk(form, n) && DistinctUsers(RowsOf(form, n)) ==> errors == [])
  }

  method ParseRows(form: OwnersForm) returns (rows: seq<Row>, errors: seq<FormError>)
    ensures RowsRead(form, |form.userIds|, rows, errors)
  {
    rows, errors := [], [];
    var seen: set<int> := {};
    for i := 0 to |form.userIds|
      invariant RowsRead(form, i, rows, errors)
      invariant seen == Users(rows)
    {
      if Skipped(form, i) {
        RowSkipped(form, i);
        continue;
      }
      RowDecides(form, i);
      if form.userIds[i].BadId? {
        errors := errors + [InvalidOwner];
        continue;
      }
      var uid := form.userIds[i].id;
      if uid in seen {
        errors := errors + [DuplicateOwner];
        continue;
      }
      var share := FieldAt(form.shares, i);
      if !ShareOk(share) {
        errors := errors + [InvalidShare];
        continue;
      }
      var buyIn := FieldAt(form.buyIns, i);
      if !BuyInOk(buyIn) {
        errors := errors + [InvalidBuyIn];
        continue;
      }
      UsersGrow(rows, Row(uid, share.value, if buyIn.Number? then buyIn.value else ZERO));
      seen := seen + {uid};
      rows := rows + [Row(uid, share.value, if buyIn.Number? then buyIn.value else ZERO)];
    }
  }

  lemma RowSkipped(form: OwnersForm, i: nat)
    requires i < |form.userIds| && Skipped(form, i)
    ensures RowsOk(form, i + 1) <==> RowsOk(form, i)
    ensures RowsOk(form, i) ==> RowsOf(form, i + 1) == RowsOf(form, i)
  {
  }

  /** One more wanted row: it must be sound, and its user new. */
  lemma RowDecides(form: OwnersForm, i: nat)
    requires i < |form.userIds| && !Skipped(form, i)
    ensures RowsOk(form, i + 1) <==> RowsOk(form, i) && RowOk(form, i)
    ensures RowsOk(form, i + 1) ==>
              && RowsOf(form, i + 1) == RowsOf(form, i) + [RowAt(form, i)]
              && (DistinctUsers(RowsOf(form, i + 1))
                  <==> DistinctUsers(RowsOf(form, i)) && RowAt(form, i).userId !in Users(RowsOf(form, i)))
  {
    if RowsOk(form, i + 1) {
      AppendDistinct(RowsOf(form, i), RowAt(form, i));
    }
  }

  lemma AppendDistinct(rows: seq<Row>, row: Row)
    ensures DistinctUsers(rows + [row]) <==> DistinctUsers(rows) && row.userId !in Users(rows)
  {
    var all := rows + [row];
    assert all[|rows|] == row && forall k :: 0 <= k < |rows| ==> all[k] == rows[k];
    if row.userId in Users(rows) {
      var k :| 0 <= k < |rows| && rows[k].userId == row.userId;
      assert all[k].userId == all[|rows|].userId;
    }
  }

  lemma UsersGrow(rows: seq<Row>, row: Row)
    ensures Users(rows + [row]) == Users(rows) + {row.userId}
    ensures DistinctUsers(rows) && row.userId !in Users(rows) ==> DistinctUsers(rows + [row])
  {
    var all := rows + [row];
    assert all[|rows|] == row;
    forall u | u in Users(rows)
      ensures u in Users(all)
    {
      var k :| 0 <= k < |rows| && rows[k].userId == u;
      assert all[k].userId == u;
    }
    AppendDistinct(rows, row);
  }

  method ParseOwnersForm(form: OwnersForm)
    returns (rows: seq<Row>, billingStart: Option<int>, rate: Option<Decimal>, errors: seq<FormError>)
    ensures errors == [] <==>
              && RowsOk(form, |form.userIds|) && DistinctUsers(RowsOf(form, |form.userIds|))
              && (RowsOf(form, |form.userIds|) != [] ==> TotalShare(RowsOf(form, |form.userIds|)) == 100.0)
              && !form.billingStart.BadDate? && AmountOk(form.hourlyRate)
    ensures errors == [] ==> rows == RowsOf(form, |form.userIds|)
    ensures billingStart == if form.billingStart.Date? then Some(form.billingStart.day) else None
    ensures rate == Amount(form.hourlyRate)
  {
    rows, errors := ParseRows(form);
    if rows != [] && TotalShare(rows) != 100.0 {
      errors := errors + [SharesNotWhole];
    }
    billingStart := None;
    match form.billingStart {
      case BlankDate =>
      case BadDate => errors := errors + [InvalidBillingStart];
      case Date(day) => billingStart := Some(day);
    }
    rate := Amount(form.hourlyRate);
    if !AmountOk(form.hourlyRate) {
      errors := errors + [InvalidRate];
    }
  }

  method ParseReserveFields(form: OwnersForm)
    returns (hourly: Option<Decimal>, monthly: Option<Decimal>, errors: seq<FormError>)
    ensures hourly == Amount(form.reserveHourly) && monthly == Amount(form.reserveMonthly)
    ensures errors == [] <==>
              && AmountOk(form.reserveHourly) && AmountOk(form.reserveMonthly)
              && (form.reserveHourly.Blank? || form.reserveMonthly.Blank?)
  {
    errors := [];
    hourly := Amount(form.reserveHourly);
    if !AmountOk(form.reserveHourly) {
      errors := errors + [InvalidReserveHourly];
    }
    monthly := Amount(form.reserveMonthly);
    if !AmountOk(form.reserveMonthly) {
      errors := errors + [InvalidReserveMonthly];
    }
    if hourly.Some? && monthly.Some? {
      errors := errors + [BothReserves];
    }
  }
}
