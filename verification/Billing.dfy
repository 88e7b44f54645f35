/** Dividing a fixed expense among the co-owners of an aircraft:
    _post_fixed_expense_shares of app/services/co_owner_billing.py. Amounts are
    whole cents, shares whole hundredths of a percent. */
module Billing {
  import opened StableSort

  datatype Owner = Owner(userId: int, share: nat)

  /** 100.00 percent. */
  const WHOLE := 10000

  /** Decimal.quantize with ROUND_HALF_UP, on an exact fraction that is not negative. */
  function RoundHalfUp(num: int, den: int): (r: int)
    requires num >= 0 && den > 0
    ensures r >= 0
    ensures -den < 2 * (r * den - num) <= den
  {
    var q, rem := num / den, num % den;
    assert q * den + rem == num && (q + 1) * den == q * den + den;
    if 2 * rem < den then q else q + 1
  }

  function ByShare(): Owner -> real {
    (o: Owner) => o.share as real
  }

  function ByUserDescending(): Owner -> real {
    (o: Owner) => -(o.userId as real)
  }

  /** sorted() by the pair of both keys: stably by the minor, then by the major one. */
  function Ordered(owners: seq<Owner>): seq<Owner> {
    SortBy(SortBy(owners, ByUserDescending()), ByShare())
  }

  function Sum(xs: seq<int>): int {
    if xs == [] then 0 else Sum(xs[..|xs| - 1]) + xs[|xs| - 1]
  }

  function TotalShare(owners: seq<Owner>): nat {
    if owners == [] then 0 else TotalShare(owners[..|owners| - 1]) + owners[|owners| - 1].share
  }

  /** Everyone but the last pays their share, rounded; the last pays what is left. */
  ghost predicate IsDivision(ordered: seq<Owner>, amount: nat, charges: seq<int>) {
    && |charges| == |ordered|
    && (forall i :: 0 <= i < |ordered| - 1 ==> charges[i] == RoundHalfUp(amount * ordered[i].share, WHOLE))
    && (ordered != [] ==> Sum(charges) == amount)
  }

  method FixedShares(owners: seq<Owner>, amount: nat) returns (charges: seq<int>)
    ensures IsDivision(Ordered(owners), amount, charges)
  {
    var ordered := Ordered(owners);
    var total := 0;
    charges := [];
    for i := 0 to |ordered|
      invariant |charges| == i && (i < |ordered| ==> total == Sum(charges))
      invariant forall k :: 0 <= k < i && k < |ordered| - 1 ==>
                  charges[k] == RoundHalfUp(amount * ordered[k].share, WHOLE)
      invariant 0 < i == |ordered| ==> Sum(charges) == amount
    {
      ghost var before := charges;
      assert forall charge :: (before + [charge])[..i] == before;
      if i < |ordered| - 1 {
        var charge := RoundHalfUp(amount * ordered[i].share, WHOLE);
        total := total + charge;
        charges := charges + [charge];
      } else {
        charges := charges + [amount - total];
      }
    }
  }

  // ---------------------------------------------------------------- Who pays the rest

  /** The last owner has the largest share, and of equal ones the smallest id. */
  lemma LastHasLargest(owners: seq<Owner>, o: Owner)
    requires o in owners
    ensures var ordered := Ordered(owners);
            && |ordered| == |owners| && multiset(ordered) == multiset(owners)
            && var last := ordered[|ordered| - 1];
               o.share <= last.share && (o.share == last.share ==> last.userId <= o.userId)
  {
    var once, ordered := SortBy(owners, ByUserDescending()), Ordered(owners);
    SortPermutes(owners, ByUserDescending());
    SortPermutes(once, ByShare());
    SortAscending(owners, ByUserDescending());
    SortTwice(once, ByShare(), ByUserDescending());
    assert o in ordered;
    var i :| 0 <= i < |ordered| && ordered[i] == o;
    assert Before(ordered[i], ordered[|ordered| - 1], ByShare(), ByUserDescending());
  }

  /** The rounding errors of the first n owners, in cents times WHOLE. */
  function Errors(ordered: seq<Owner>, amount: nat, n: nat): int
    requires n <= |ordered|
  {
    if n == 0 then 0
    else
      var exact := amount * ordered[n - 1].share;
      Errors(ordered, amount, n - 1) + RoundHalfUp(exact, WHOLE) * WHOLE - exact
  }

  lemma {:induction false} ErrorsBound(ordered: seq<Owner>, amount: nat, n: nat)
    requires n <= |ordered|
    ensures -(n * WHOLE) <= 2 * Errors(ordered, amount, n) <= n * WHOLE
  {
    if n > 0 {
      ErrorsBound(ordered, amount, n - 1);
    }
  }

  /** What the first n owners pay, together. */
  lemma {:induction false} PaidSoFar(ordered: seq<Owner>, amount: nat, charges: seq<int>, n: nat)
    requires IsDivision(ordered, amount, charges) && n < |ordered|
    ensures Sum(charges[..n]) * WHOLE == amount * TotalShare(ordered[..n]) + Errors(ordered, amount, n)
  {
    if n > 0 {
      PaidSoFar(ordered, amount, charges, n - 1);
      assert charges[..n][..n - 1] == charges[..n - 1] && ordered[..n][..n - 1] == ordered[..n - 1];
      Spread(amount, TotalShare(ordered[..n - 1]), ordered[n - 1].share);
    }
  }

  lemma Spread(a: int, b: int, c: int)
    ensures a * (b + c) == a * b + a * c
  {
  }

  /** The last owner makes up for everyone's rounding: that charge is the exact share
      less all other errors. */
  lemma LastPaysRest(ordered: seq<Owner>, amount: nat, charges: seq<int>)
    requires IsDivision(ordered, amount, charges) && ordered != [] && TotalShare(ordered) == WHOLE
    ensures var n := |ordered| - 1;
            charges[n] * WHOLE == amount * ordered[n].share - Errors(ordered, amount, n)
  {
    var n := |ordered| - 1;
    PaidSoFar(ordered, amount, charges, n);
    Spread(amount, TotalShare(ordered[..n]), ordered[n].share);
  }

  /** The charges add up to the expense. Each differs from the exact share by half a
      cent at most, the last by at most half a cent for each other owner. */
  lemma DivisionBounds(ordered: seq<Owner>, amount: nat, charges: seq<int>, i: nat)
    requires IsDivision(ordered, amount, charges) && TotalShare(ordered) == WHOLE && i < |ordered|
    ensures Sum(charges) == amount
    ensures var cents := if i < |ordered| - 1 then 1 else |ordered| - 1;
            -(cents * WHOLE) <= 2 * (charges[i] * WHOLE - amount * ordered[i].share) <= cents * WHOLE
  {
    if i == |ordered| - 1 {
      LastPaysRest(ordered, amount, charges);
      ErrorsBound(ordered, amount, i);
    }
  }

  /** The last charge is not negative exactly if the exact share covers the errors. */
  lemma LastNotNegativeIff(ordered: seq<Owner>, amount: nat, charges: seq<int>)
    requires IsDivision(ordered, amount, charges) && ordered != [] && TotalShare(ordered) == WHOLE
    ensures var n := |ordered| - 1;
            charges[n] >= 0 <==> Errors(ordered, amount, n) <= amount * ordered[n].share
  {
    LastPaysRest(ordered, amount, charges);
  }

  lemma {:induction false} LargestShare(owners: seq<Owner>, most: nat)
    requires forall o :: o in owners ==> o.share <= most
    ensures TotalShare(owners) <= |owners| * most
  {
    if owners != [] {
      var n := |owners| - 1;
      assert owners[n] in owners;
      LargestShare(owners[..n], most);
      Spread(most, n, 1);
    }
  }

  /** No owner is ever credited for an expense of at least a cent for each pair of owners. */
  lemma NobodyCredited(owners: seq<Owner>, amount: nat, charges: seq<int>, i: nat)
    requires IsDivision(Ordered(owners), amount, charges) && TotalShare(Ordered(owners)) == WHOLE
    requires 2 * amount >= |owners| * (|owners| - 1) && i < |charges|
    ensures charges[i] >= 0
  {
    var ordered := Ordered(owners);
    var n := |ordered| - 1;
    SortPermutes(owners, ByUserDescending());
    SortPermutes(SortBy(owners, ByUserDescending()), ByShare());
    if i == n {
      forall o | o in ordered
        ensures o.share <= ordered[n].share
      {
        LastHasLargest(owners, o);
      }
      LargestShare(ordered, ordered[n].share);
      LastPaysRest(ordered, amount, charges);
      ErrorsBound(ordered, amount, n);
      Covered(|ordered|, amount, ordered[n].share, charges[n]);
    }
  }

  lemma Covered(n: nat, amount: nat, share: nat, charge: int)
    requires n > 0 && n * share >= WHOLE && 2 * amount >= n * (n - 1)
    requires 2 * (charge * WHOLE) >= 2 * (amount * share) - (n - 1) * WHOLE
    ensures charge >= 0
  {
    var exact, pairs := amount * share, n * (n - 1);
    assert n * exact == amount * (n * share) >= amount * WHOLE;
    assert n * ((n - 1) * WHOLE) == pairs * WHOLE;
    assert n * (2 * (charge * WHOLE)) >= n * (2 * exact - (n - 1) * WHOLE) == 2 * (n * exact) - pairs * WHOLE;
    assert n * (2 * (charge * WHOLE)) == 2 * WHOLE * (n * charge);
    assert n * charge >= 0;
  }

  /** A hundred owners of 1.00 percent: each pays a cent of 50 cents, and the last is
      credited 49 cents. */
  lemma LastCredited(ordered: seq<Owner>, charges: seq<int>)
    requires |ordered| == 100 && (forall i :: 0 <= i < 100 ==> ordered[i].share == 100)
    requires IsDivision(ordered, 50, charges)
    ensures TotalShare(ordered) == WHOLE && charges[99] == -49
  {
    EqualShares(ordered, 100);
    EqualCharges(ordered, charges, 99);
    assert charges[..99] + [charges[99]] == charges && ordered[..100] == ordered;
  }

  lemma {:induction false} EqualShares(ordered: seq<Owner>, n: nat)
    requires n <= |ordered| && forall i :: 0 <= i < |ordered| ==> ordered[i].share == 100
    ensures TotalShare(ordered[..n]) == 100 * n
  {
    if n > 0 {
      EqualShares(ordered, n - 1);
      assert ordered[..n][..n - 1] == ordered[..n - 1];
    }
  }

  lemma {:induction false} EqualCharges(ordered: seq<Owner>, charges: seq<int>, n: nat)
    requires n < |ordered| && forall i :: 0 <= i < |ordered| ==> ordered[i].share == 100
    requires IsDivision(ordered, 50, charges)
    ensures Sum(charges[..n]) == n
  {
    if n > 0 {
      EqualCharges(ordered, charges, n - 1);
      assert charges[..n][..n - 1] == charges[..n - 1];
      assert charges[n - 1] == RoundHalfUp(5000, WHOLE) == 1;
    }
  }
}
