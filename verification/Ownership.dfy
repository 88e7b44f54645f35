/** Saving the owners of an aircraft, and every run of saves: manage_owners. */
module Ownership {
  import opened Options
  import opened Owners
  import opened Sequences

  datatype Owner = Owner(share: Decimal, buyIn: Decimal)

  type OwnerSet = map<int, Owner>

  datatype State = State(
    owners: OwnerSet,
    hourlyRate: Option<Decimal>,
    reserveHourly: Option<Decimal>,
    reserveMonthly: Option<Decimal>,
    billingStart: Option<int>)

  /** The owner set that the rows describe. */
  function OwnersOf(rows: seq<Row>): OwnerSet {
    if rows == [] then map[]
    else
      var row := rows[|rows| - 1];
      OwnersOf(rows[..|rows| - 1])[row.userId := Owner(row.share, row.buyIn)]
  }

  /** A rejected form changes nothing; an accepted one replaces the owner set. */
  ghost function Saved(s: State, form: OwnersForm, today: int): State {
    if !FormOk(form) then s
    else
      var rows := RowsOf(form, |form.userIds|);
      State(
        OwnersOf(rows),
        Amount(form.hourlyRate),
        Amount(form.reserveHourly),
        Amount(form.reserveMonthly),
        if form.billingStart.Date? then Some(form.billingStart.day)
        else if s.owners == map[] && rows != [] && s.billingStart.None? then Some(today)
        else s.billingStart)
  }

  lemma {:induction false} OwnersOfUsers(rows: seq<Row>)
    ensures OwnersOf(rows).Keys == Users(rows)
  {
    if rows != [] {
      var init, row := rows[..|rows| - 1], rows[|rows| - 1];
      OwnersOfUsers(init);
      assert rows == init + [row];
      UsersGrow(init, row);
    }
  }

  /** Dropping the owners not submitted and overwriting the rest leaves the rows. */
  lemma ReplaceAll(owners: OwnerSet, rows: seq<Row>)
    ensures (map u | u in owners && u in Users(rows) :: owners[u]) + OwnersOf(rows) == OwnersOf(rows)
  {
    OwnersOfUsers(rows);
  }

  /** Every submitted row is stored as submitted. */
  lemma {:induction false} OwnersOfRow(rows: seq<Row>, i: nat)
    requires DistinctUsers(rows) && i < |rows|
    ensures rows[i].userId in OwnersOf(rows) && OwnersOf(rows)[rows[i].userId] == Owner(rows[i].share, rows[i].buyIn)
  {
    if i < |rows| - 1 {
      OwnersOfRow(rows[..|rows| - 1], i);
    }
  }

  class Aircraft {
    var owners: OwnerSet
    var hourlyRate: Option<Decimal>
    var reserveHourly: Option<Decimal>
    var reserveMonthly: Option<Decimal>
    var billingStart: Option<int>

    function Stored(): State
      reads this
    {
      State(owners, hourlyRate, reserveHourly, reserveMonthly, billingStart)
    }

    constructor ()
      ensures Stored() == State(map[], None, None, None, None)
    {
      owners, hourlyRate, reserveHourly, reserveMonthly, billingStart := map[], None, None, None, None;
    }

    /** Deletes the owners that were not submitted. */
    method DeleteMissing(submitted: set<int>)
      modifies this`owners
      ensures owners == map u | u in old(owners) && u in submitted :: old(owners)[u]
    {
      var existing := owners.Keys;
      while existing != {}
        invariant existing <= old(owners).Keys
        invariant owners == map u | u in old(owners) && (u in submitted || u in existing) :: old(owners)[u]
        decreases existing
      {
        SomeMember(existing);
        var u :| u in existing;
        if u !in submitted {
          owners := owners - {u};
        }
        existing := existing - {u};
      }
    }

    /** Updates the rows of known owners in place and adds the others. */
    method StoreRows(rows: seq<Row>)
      modifies this`owners
      ensures owners == old(owners) + OwnersOf(rows)
    {
      for i := 0 to |rows|
        invariant owners == old(owners) + OwnersOf(rows[..i])
      {
        assert rows[..i + 1][..i] == rows[..i];
        owners := owners[rows[i].userId := Owner(rows[i].share, rows[i].buyIn)];
      }
      assert rows[..|rows|] == rows;
    }

    /** Deleting, updating and adding together replace the owner set by exactly the
        submitted rows; any error leaves everything as it was. */
    method ManageOwners(form: OwnersForm, today: int) returns (saved: bool)
      modifies this
      ensures saved <==> FormOk(form)
      ensures Stored() == Saved(old(Stored()), form, today)
      ensures saved ==>
                && StoredAsSaid(hourlyRate, form.hourlyRate)
                && StoredAsSaid(reserveHourly, form.reserveHourly)
                && StoredAsSaid(reserveMonthly, form.reserveMonthly)
    {
      SavedAsSaid(Stored(), form, today);
      hide RowsOk, DistinctUsers, RowsOf, TotalShare, AmountOk, Amount, OwnersOf;
      var rows, start, rate, errors := ParseOwnersForm(form);
      var hourly, monthly, reserveErrors := ParseReserveFields(form);
      errors := errors + reserveErrors;
      if errors != [] {
        return false;
      }
      var isFirstSave := owners == map[];
      var submitted := Users(rows);
      DeleteMissing(submitted);
      StoreRows(rows);
      ReplaceAll(old(owners), rows);
      hourlyRate, reserveHourly, reserveMonthly := rate, hourly, monthly;
      if start.Some? {
        billingStart := start;
      } else if isFirstSave && rows != [] && billingStart.None? {
        billingStart := Some(today);
      }
      return true;
    }
  }

  // ---------------------------------------------------------------- Shares of an owner set

  ghost function TotalOf(owners: OwnerSet): real {
    if owners == map[] then 0.0
    else
      SomeMember(owners.Keys);
      var u :| u in owners.Keys;
      owners[u].share.Value() + TotalOf(owners - {u})
  }

  /** The total does not depend on the order of adding up. */
  lemma {:induction false} TotalWithout(owners: OwnerSet, u: int)
    requires u in owners
    ensures TotalOf(owners) == owners[u].share.Value() + TotalOf(owners - {u})
    decreases |owners|
  {
    SomeMember(owners.Keys);
    var v :| v in owners.Keys && TotalOf(owners) == owners[v].share.Value() + TotalOf(owners - {v});
    if u != v {
      TotalWithout(owners - {v}, u);
      TotalWithout(owners - {u}, v);
      assert owners - {v} - {u} == owners - {u} - {v};
    }
  }

  lemma {:induction false} TotalOfRows(rows: seq<Row>)
    requires DistinctUsers(rows)
    ensures TotalOf(OwnersOf(rows)) == TotalShare(rows)
  {
    if rows != [] {
      var init, row := rows[..|rows| - 1], rows[|rows| - 1];
      TotalOfRows(init);
      OwnersOfUsers(init);
      assert rows == init + [row];
      AppendDistinct(init, row);
      TotalWithout(OwnersOf(rows), row.userId);
      assert OwnersOf(rows) - {row.userId} == OwnersOf(init);
    }
  }

  // ---------------------------------------------------------------- Every run of saves

  datatype Save = Save(form: OwnersForm, today: int)

  ghost function Run(s: State, saves: seq<Save>): State {
    if saves == [] then s
    else
      var last := saves[|saves| - 1];
      Saved(Run(s, saves[..|saves| - 1]), last.form, last.today)
  }

  const NEW_AIRCRAFT := State(map[], None, None, None, None)

  /** What the owners table promises. */
  ghost predicate Sound(s: State) {
    && (s.owners != map[] ==> TotalOf(s.owners) == 100.0)
    && (forall u :: u in s.owners ==> 0.0 < s.owners[u].share.Value() <= 100.0 && s.owners[u].buyIn.Value() >= 0.0)
    && (s.reserveHourly.None? || s.reserveMonthly.None?)
    && (s.owners != map[] ==> s.billingStart.Some?)
  }

  lemma {:induction false} RowsSound(form: OwnersForm, n: nat, u: int)
    requires n <= |form.userIds| && RowsOk(form, n) && u in OwnersOf(RowsOf(form, n))
    ensures var o := OwnersOf(RowsOf(form, n))[u]; 0.0 < o.share.Value() <= 100.0 && o.buyIn.Value() >= 0.0
  {
    var rows := RowsOf(form, n);
    if n > 0 {
      if Skipped(form, n - 1) {
        RowSkipped(form, n - 1);
        RowsSound(form, n - 1, u);
      } else {
        RowDecides(form, n - 1);
        assert rows[..|rows| - 1] == RowsOf(form, n - 1);
        if u != RowAt(form, n - 1).userId {
          RowsSound(form, n - 1, u);
        }
      }
    }
  }

  lemma SaveKeepsSound(s: State, form: OwnersForm, today: int)
    requires Sound(s)
    ensures Sound(Saved(s, form, today))
  {
    if FormOk(form) {
      var n := |form.userIds|;
      TotalOfRows(RowsOf(form, n));
      forall u | u in OwnersOf(RowsOf(form, n))
        ensures var o := OwnersOf(RowsOf(form, n))[u]; 0.0 < o.share.Value() <= 100.0 && o.buyIn.Value() >= 0.0
      {
        RowsSound(form, n, u);
      }
    }
  }

  /** After any sequence of saves the owners are none, or distinct users whose shares
      make exactly 100%, with a billing start; the two reserves are never both set. */
  lemma {:induction false} EveryRunSound(saves: seq<Save>)
    ensures Sound(Run(NEW_AIRCRAFT, saves))
  {
    if saves != [] {
      EveryRunSound(saves[..|saves| - 1]);
      var last := saves[|saves| - 1];
      SaveKeepsSound(Run(NEW_AIRCRAFT, saves[..|saves| - 1]), last.form, last.today);
    }
  }

  /** The stored owners are those of the last accepted form, row for row. */
  lemma {:induction false} OwnersAreLastAccepted(s: State, saves: seq<Save>, k: nat)
    requires k < |saves| && FormOk(saves[k].form)
    requires forall m :: k < m < |saves| ==> !FormOk(saves[m].form)
    ensures Run(s, saves).owners == OwnersOf(RowsOf(saves[k].form, |saves[k].form.userIds|))
    ensures Run(s, saves).owners.Keys == Users(RowsOf(saves[k].form, |saves[k].form.userIds|))
  {
    OwnersOfUsers(RowsOf(saves[k].form, |saves[k].form.userIds|));
    if k < |saves| - 1 {
      OwnersAreLastAccepted(s, saves[..|saves| - 1], k);
    }
  }

  // ---------------------------------------------------------------- What a form stores

  /** The i-th row of the form has a user and is not marked for removal. */
  predicate Wanted(form: OwnersForm, i: nat)
    requires i < |form.userIds|
  {
    !form.userIds[i].BlankId? && i !in form.remove
  }

  /** A number field that is filled in is stored, a blank one clears. */
  ghost predicate StoredAsSaid(stored: Option<Decimal>, field: NumberField) {
    (field.Number? ==> stored == Some(field.value)) && (field.Blank? ==> stored.None?)
  }

  /** Row i of the form, as an owner: the share of its own line, and the buy-in of its
      own line, nothing if there is none. */
  ghost predicate OwnerOfLine(form: OwnersForm, i: nat, o: Owner) {
    && i < |form.shares| && form.shares[i] == Number(o.share)
    && (i < |form.buyIns| && form.buyIns[i].Number? ==> o.buyIn == form.buyIns[i].value)
    && (i >= |form.buyIns| || form.buyIns[i].Blank? ==> o.buyIn.Value() == 0.0)
  }

  /** Every wanted line of an accepted form is one row, and every row such a line. */
  lemma {:induction false} RowsAreLines(form: OwnersForm, n: nat, row: Row)
    requires n <= |form.userIds| && RowsOk(form, n)
    ensures row in RowsOf(form, n) <==>
              exists i: nat :: i < n && Wanted(form, i) && RowOk(form, i) && row == RowAt(form, i)
  {
    if n > 0 {
      RowsAreLines(form, n - 1, row);
      if !Skipped(form, n - 1) { assert Wanted(form, n - 1); }
    }
  }

  lemma {:induction false} OwnerIsRow(rows: seq<Row>, u: int)
    ensures u in OwnersOf(rows) ==>
              exists k :: 0 <= k < |rows| && rows[k].userId == u
                          && OwnersOf(rows)[u] == Owner(rows[k].share, rows[k].buyIn)
  {
    if rows != [] {
      var n := |rows| - 1;
      OwnerIsRow(rows[..n], u);
      if u in OwnersOf(rows) && rows[n].userId != u {
        var k :| 0 <= k < n && rows[..n][k].userId == u
          && OwnersOf(rows[..n])[u] == Owner(rows[..n][k].share, rows[..n][k].buyIn);
        assert rows[k] == rows[..n][k];
      }
    }
  }

  lemma SavedAsSaid(s: State, form: OwnersForm, today: int)
    ensures FormOk(form) ==>
              var t := Saved(s, form, today);
              && StoredAsSaid(t.hourlyRate, form.hourlyRate)
              && StoredAsSaid(t.reserveHourly, form.reserveHourly)
              && StoredAsSaid(t.reserveMonthly, form.reserveMonthly)
  {
  }

  /** What a save stores, line by line and field by field of the form. */
  lemma SavedAsSubmitted(s: State, form: OwnersForm, today: int)
    requires FormOk(form)
    ensures var t := Saved(s, form, today);
            && StoredAsSaid(t.hourlyRate, form.hourlyRate)
            && StoredAsSaid(t.reserveHourly, form.reserveHourly)
            && StoredAsSaid(t.reserveMonthly, form.reserveMonthly)
            && (forall i: nat :: i < |form.userIds| && Wanted(form, i) ==>
                  && form.userIds[i].Id? && form.userIds[i].id in t.owners
                  && OwnerOfLine(form, i, t.owners[form.userIds[i].id]))
            && (forall u :: u in t.owners ==>
                  exists i: nat :: i < |form.userIds| && Wanted(form, i) && form.userIds[i] == Id(u))
  {
    var t, n := Saved(s, form, today), |form.userIds|;
    var rows := RowsOf(form, n);
    forall i: nat | i < n && Wanted(form, i)
      ensures form.userIds[i].Id? && form.userIds[i].id in t.owners
      ensures OwnerOfLine(form, i, t.owners[form.userIds[i].id])
    {
      RowsAreLines(form, n, RowAt(form, i));
      var k :| 0 <= k < |rows| && rows[k] == RowAt(form, i);
      OwnersOfRow(rows, k);
      ZeroValue();
    }
    forall u | u in t.owners
      ensures exists i: nat :: i < n && Wanted(form, i) && form.userIds[i] == Id(u)
    {
      OwnerIsRow(rows, u);
      var k :| 0 <= k < |rows| && rows[k].userId == u;
      RowsAreLines(form, n, rows[k]);
    }
  }

  lemma ZeroValue()
    ensures ZERO.Value() == 0.0
  {
  }

  /** Both rates and both reserves are those of the last accepted form. */
  lemma {:induction false} RatesAreLastAccepted(s: State, saves: seq<Save>, k: nat)
    requires k < |saves| && FormOk(saves[k].form)
    requires forall m :: k < m < |saves| ==> !FormOk(saves[m].form)
    ensures var t, form := Run(s, saves), saves[k].form;
            && StoredAsSaid(t.hourlyRate, form.hourlyRate)
            && StoredAsSaid(t.reserveHourly, form.reserveHourly)
            && StoredAsSaid(t.reserveMonthly, form.reserveMonthly)
  {
    hide RowsOf, RowsOk, OwnersOf;
    if k < |saves| - 1 {
      RatesAreLastAccepted(s, saves[..|saves| - 1], k);
    } else {
      SavedAsSubmitted(Run(s, saves[..k]), saves[k].form, saves[k].today);
    }
  }

  // ---------------------------------------------------------------- The billing start

  /** The form is accepted and gives a date. */
  ghost predicate Dates(save: Save) {
    FormOk(save.form) && save.form.billingStart.Date?
  }

  /** The form is accepted and names an owner. */
  ghost predicate NamesOwner(save: Save) {
    FormOk(save.form) && exists i: nat :: i < |save.form.userIds| && Wanted(save.form, i)
  }

  lemma OwnersAfter(s: State, save: Save)
    requires FormOk(save.form)
    ensures Saved(s, save.form, save.today).owners == map[] <==> !NamesOwner(save)
    ensures RowsOf(save.form, |save.form.userIds|) == [] <==> !NamesOwner(save)
  {
    var form, n := save.form, |save.form.userIds|;
    var rows, t := RowsOf(form, n), Saved(s, form, save.today);
    SavedAsSubmitted(s, form, save.today);
    OwnersOfUsers(rows);
    if i: nat :| i < n && Wanted(form, i) {
      assert form.userIds[i].id in t.owners;
    }
    if u :| u in t.owners {
      assert NamesOwner(save);
    }
    if rows != [] {
      assert rows[0].userId in Users(rows);
    }
  }

  /** One save: a date given is stored; a blank one changes nothing that is set, and
      sets today where owners are stored for the first time and nothing is set. */
  lemma BillingStartStep(s: State, save: Save)
    ensures var t := Saved(s, save.form, save.today);
            && (Dates(save) ==> t.billingStart == Some(save.form.billingStart.day))
            && (!Dates(save) && s.billingStart.Some? ==> t.billingStart == s.billingStart)
            && (!Dates(save) && s.billingStart.None? ==>
                  t.billingStart == if s.owners == map[] && NamesOwner(save) then Some(save.today) else None)
  {
    if FormOk(save.form) {
      OwnersAfter(s, save);
    }
  }

  /** After any run on a new aircraft the billing start is the last date that an accepted
      form gave. If none did, it is the day of the first accepted form that names an
      owner, and without such a form it is not set. */
  lemma {:induction false} BillingStartOverRuns(saves: seq<Save>, k: nat)
    ensures k < |saves| && Dates(saves[k]) && (forall m :: k < m < |saves| ==> !Dates(saves[m])) ==>
              Run(NEW_AIRCRAFT, saves).billingStart == Some(saves[k].form.billingStart.day)
    ensures (forall m :: 0 <= m < |saves| ==> !Dates(saves[m]))
            && k < |saves| && NamesOwner(saves[k]) && (forall m :: 0 <= m < k ==> !NamesOwner(saves[m])) ==>
              Run(NEW_AIRCRAFT, saves).billingStart == Some(saves[k].today)
    ensures (forall m :: 0 <= m < |saves| ==> !Dates(saves[m]) && !NamesOwner(saves[m])) ==>
              Run(NEW_AIRCRAFT, saves).billingStart.None?
  {
    hide FormOk, Dates, NamesOwner, Saved;
    if saves != [] {
      var init, last := saves[..|saves| - 1], saves[|saves| - 1];
      BillingStartOverRuns(init, k);
      BillingStartStep(Run(NEW_AIRCRAFT, init), last);
      if forall m :: 0 <= m < |init| ==> !NamesOwner(init[m]) {
        NoOwnersYet(init);
      }
    }
  }

  lemma {:induction false} NoOwnersYet(saves: seq<Save>)
    requires forall m :: 0 <= m < |saves| ==> !NamesOwner(saves[m])
    ensures Run(NEW_AIRCRAFT, saves).owners == map[]
  {
    hide NamesOwner, Saved;
    if saves != [] {
      var init, last := saves[..|saves| - 1], saves[|saves| - 1];
      NoOwnersYet(init);
      NoOwnersStep(Run(NEW_AIRCRAFT, init), last);
    }
  }

  lemma NoOwnersStep(s: State, save: Save)
    requires s.owners == map[] && !NamesOwner(save)
    ensures Saved(s, save.form, save.today).owners == map[]
  {
    if FormOk(save.form) { OwnersAfter(s, save); }
  }

  // ---------------------------------------------------------------- When a form is accepted

  /** A line with a user, a share above 0 and up to 100 with at most two decimals, and a
      buy-in that is blank, missing, or not negative. */
  ghost predicate LineOk(form: OwnersForm, i: nat)
    requires i < |form.userIds|
  {
    && form.userIds[i].Id?
    && i < |form.shares| && form.shares[i].Number?
    && form.shares[i].value.Value() > 0.0 && !(form.shares[i].value.Value() > 100.0)
    && !(form.shares[i].value.exponent < -2)
    && (i < |form.buyIns| ==>
          form.buyIns[i].Blank? || (form.buyIns[i].Number? && !(form.buyIns[i].value.Value() < 0.0)))
  }

  /** A field left blank, or a number that is not negative. */
  ghost predicate RateOk(f: NumberField) {
    f.Blank? || (f.Number? && !(f.value.Value() < 0.0))
  }

  /** The shares of the first n wanted lines, added up. */
  ghost function LineShares(form: OwnersForm, n: nat): real
    requires n <= |form.userIds|
  {
    if n == 0 then 0.0
    else
      LineShares(form, n - 1)
      + if Wanted(form, n - 1) && n <= |form.shares| && form.shares[n - 1].Number? then form.shares[n - 1].value.Value()
        else 0.0
  }

  lemma LineOkIff(form: OwnersForm, i: nat)
    requires i < |form.userIds|
    ensures (Skipped(form, i) || RowOk(form, i)) <==> (!Wanted(form, i) || LineOk(form, i))
  {
  }

  lemma {:induction false} SharesOfLines(form: OwnersForm, n: nat)
    requires n <= |form.userIds| && RowsOk(form, n)
    ensures LineShares(form, n) == TotalShare(RowsOf(form, n))
    ensures RowsOf(form, n) == [] <==> forall i: nat :: i < n ==> !Wanted(form, i)
  {
    if n > 0 {
      SharesOfLines(form, n - 1);
      var rows := RowsOf(form, n - 1);
      if Wanted(form, n - 1) {
        assert !Skipped(form, n - 1);
        var row := RowAt(form, n - 1);
        assert (rows + [row])[..|rows|] == rows;
        assert TotalShare(rows + [row]) == TotalShare(rows) + row.share.Value();
      } else {
        assert Skipped(form, n - 1);
        RowSkipped(form, n - 1);
      }
    }
  }

  /** No two of the first n wanted lines have one user. */
  ghost predicate LinesDiffer(form: OwnersForm, n: nat)
    requires n <= |form.userIds|
  {
    forall i: nat, j: nat :: i < j < n && Wanted(form, i) && Wanted(form, j) ==> form.userIds[i] != form.userIds[j]
  }

  lemma {:induction false} DistinctLines(form: OwnersForm, n: nat)
    requires n <= |form.userIds| && RowsOk(form, n)
    ensures DistinctUsers(RowsOf(form, n)) <==> LinesDiffer(form, n)
  {
    hide DistinctUsers, RowsOf;
    if n == 0 {
      NoLines(form);
    } else {
      DistinctLines(form, n - 1);
      if Wanted(form, n - 1) {
        assert !Skipped(form, n - 1) && RowOk(form, n - 1);
        RowDecides(form, n - 1);
        UserIsLine(form, n - 1, form.userIds[n - 1].id);
      } else {
        RowSkipped(form, n - 1);
      }
    }
  }

  lemma NoLines(form: OwnersForm)
    ensures DistinctUsers(RowsOf(form, 0))
  {
  }

  lemma UserIsLine(form: OwnersForm, n: nat, u: int)
    requires n <= |form.userIds| && RowsOk(form, n)
    ensures u in Users(RowsOf(form, n)) <==> exists i: nat :: i < n && Wanted(form, i) && form.userIds[i] == Id(u)
  {
    var rows := RowsOf(form, n);
    if u in Users(rows) {
      var k :| 0 <= k < |rows| && rows[k].userId == u;
      RowsAreLines(form, n, rows[k]);
    }
    if i: nat :| i < n && Wanted(form, i) && form.userIds[i] == Id(u) {
      assert !Skipped(form, i);
      RowsAreLines(form, n, RowAt(form, i));
      var k :| 0 <= k < |rows| && rows[k] == RowAt(form, i);
      assert rows[k].userId == u;
    }
  }

  /** A form is accepted exactly if every wanted line is sound, no two have one user, the
      shares make 100 unless there is no wanted line, the date and the rates are readable,
      and at most one of the reserves is given. */
  lemma AcceptedIff(form: OwnersForm)
    ensures FormOk(form) <==>
              && (forall i: nat :: i < |form.userIds| && Wanted(form, i) ==> LineOk(form, i))
              && LinesDiffer(form, |form.userIds|)
              && ((exists i: nat :: i < |form.userIds| && Wanted(form, i)) ==>
                    LineShares(form, |form.userIds|) == 100.0)
              && !form.billingStart.BadDate?
              && RateOk(form.hourlyRate) && RateOk(form.reserveHourly) && RateOk(form.reserveMonthly)
              && (form.reserveHourly.Blank? || form.reserveMonthly.Blank?)
  {
    var n := |form.userIds|;
    LinesOkIff(form);
    RateOkIff(form.hourlyRate);
    RateOkIff(form.reserveHourly);
    RateOkIff(form.reserveMonthly);
    hide RowsOk, LineOk, RateOk, AmountOk, DistinctUsers, LinesDiffer, RowsOf, TotalShare, LineShares;
    if RowsOk(form, n) {
      SharesOfLines(form, n);
      DistinctLines(form, n);
    }
  }

  lemma LinesOkIff(form: OwnersForm)
    ensures RowsOk(form, |form.userIds|)
            <==> forall i: nat :: i < |form.userIds| && Wanted(form, i) ==> LineOk(form, i)
  {
    hide RowOk, LineOk, Skipped, Wanted;
    forall i: nat | i < |form.userIds|
      ensures (Skipped(form, i) || RowOk(form, i)) <==> (!Wanted(form, i) || LineOk(form, i))
    {
      LineOkIff(form, i);
    }
  }

  lemma RateOkIff(f: NumberField)
    ensures AmountOk(f) <==> RateOk(f)
  {
  }
}
