/** Double-entry postings and their validation, with int64 totals (cmd/ledger-service/double_entry.go:42-223). */
module Postings {
  import opened Hashing
  import opened Encoding

  const DEBIT := "DEBIT"
  const CREDIT := "CREDIT"
  const CUSTOMER_LIABILITY := "CUSTOMER_LIABILITY"
  const SETTLEMENT_ASSET := "SETTLEMENT_ASSET"

  const TWO63: int := 0x8000_0000_0000_0000
  const TWO64: int := 0x1_0000_0000_0000_0000

  /** Two's-complement int64. */
  function Wrap(x: int): int {
    (x + TWO63) % TWO64 - TWO63
  }

  lemma WrapAdd(a: int, b: int)
    ensures Wrap(Wrap(a) + b) == Wrap(a + b)
  {
    var q := (a + TWO63) / TWO64;
    assert Wrap(a) == a - q * TWO64;
    ModShift(a + b + TWO63, q);
  }

  lemma ModShift(x: int, q: int)
    ensures (x - q * TWO64) % TWO64 == x % TWO64
  {
    var d := x / TWO64;
    assert x - q * TWO64 == (d - q) * TWO64 + x % TWO64;
    ModUnique(x - q * TWO64, d - q, x % TWO64);
  }

  lemma ModUnique(x: int, d: int, r: int)
    requires x == d * TWO64 + r && 0 <= r < TWO64
    ensures x % TWO64 == r
  {
  }

  lemma WrapEqual(a: int, b: int)
    requires 0 <= a < TWO64 && 0 <= b < TWO64
    ensures Wrap(a) == Wrap(b) <==> a == b
  {
  }

  // ---- totals ----

  function AmountIf(p: Posting, direction: string, currency: string): int {
    if p.direction == direction && p.currency == currency then p.amount else 0
  }

  /** The true total, unbounded. */
  function Total(ps: seq<Posting>, direction: string, currency: string): int {
    if ps == [] then 0
    else Total(ps[..|ps| - 1], direction, currency) + AmountIf(ps[|ps| - 1], direction, currency)
  }

  predicate Mentions(ps: seq<Posting>, direction: string, currency: string) {
    exists i :: 0 <= i < |ps| && ps[i].direction == direction && ps[i].currency == currency
  }

  predicate WellFormed(p: Posting) {
    p.accountId != "" && p.amount > 0 && p.currency != "" && (p.direction == DEBIT || p.direction == CREDIT)
  }

  predicate AllWellFormed(ps: seq<Posting>) {
    forall i :: 0 <= i < |ps| ==> WellFormed(ps[i])
  }

  function Lookup(m: map<string, int>, c: string): int {
    if c in m then m[c] else 0
  }

  function Bump(m: map<string, int>, c: string, amount: int): map<string, int> {
    m[c := Wrap(Lookup(m, c) + amount)]
  }

  /** m holds the wrapped totals of ps in one direction, for exactly the currencies mentioned. */
  ghost predicate HoldsTotals(m: map<string, int>, ps: seq<Posting>, direction: string) {
    forall c :: (c in m <==> Mentions(ps, direction, c)) && Lookup(m, c) == Wrap(Total(ps, direction, c))
  }

  lemma HoldsTotalsExtend(m: map<string, int>, ps: seq<Posting>, p: Posting, direction: string)
    requires HoldsTotals(m, ps, direction)
    ensures HoldsTotals(if p.direction == direction then Bump(m, p.currency, p.amount) else m, ps + [p], direction)
  {
    var m' := if p.direction == direction then Bump(m, p.currency, p.amount) else m;
    forall c ensures (c in m' <==> Mentions(ps + [p], direction, c))
        && Lookup(m', c) == Wrap(Total(ps + [p], direction, c)) {
      assert (ps + [p])[..|ps|] == ps;
      assert Mentions(ps + [p], direction, c) <==>
             Mentions(ps, direction, c) || (p.direction == direction && p.currency == c) by {
        MentionsExtend(ps, p, direction, c);
      }
      WrapAdd(Total(ps, direction, c), AmountIf(p, direction, c));
    }
  }

  lemma MentionsExtend(ps: seq<Posting>, p: Posting, direction: string, c: string)
    ensures Mentions(ps + [p], direction, c) <==>
            Mentions(ps, direction, c) || (p.direction == direction && p.currency == c)
  {
    if Mentions(ps, direction, c) {
      var i :| 0 <= i < |ps| && ps[i].direction == direction && ps[i].currency == c;
      assert (ps + [p])[i] == ps[i];
    }
    assert (ps + [p])[|ps|] == p;
  }

  method AccumulatePostingTotals(ps: seq<Posting>)
    returns (ok: bool, debits: map<string, int>, credits: map<string, int>)
    ensures ok == AllWellFormed(ps)
    ensures ok ==> HoldsTotals(debits, ps, DEBIT) && HoldsTotals(credits, ps, CREDIT)
  {
    debits, credits := map[], map[];
    for i := 0 to |ps|
      invariant AllWellFormed(ps[..i])
      invariant HoldsTotals(debits, ps[..i], DEBIT) && HoldsTotals(credits, ps[..i], CREDIT)
    {
      var p := ps[i];
      if p.accountId == "" || p.amount <= 0 || p.currency == "" {
        return false, map[], map[];
      }
      assert ps[..i + 1] == ps[..i] + [p];
      HoldsTotalsExtend(debits, ps[..i], p, DEBIT);
      HoldsTotalsExtend(credits, ps[..i], p, CREDIT);
      if p.direction == DEBIT {
        debits := Bump(debits, p.currency, p.amount);
      } else if p.direction == CREDIT {
        credits := Bump(credits, p.currency, p.amount);
      } else {
        return false, map[], map[];
      }
    }
    assert ps[..|ps|] == ps;
    ok := true;
  }

  method CheckCurrencyEquilibrium(debits: map<string, int>, credits: map<string, int>) returns (ok: bool)
    ensures ok <==> (forall c :: c in debits ==> debits[c] == Lookup(credits, c)) && credits.Keys <= debits.Keys
  {
    var todo := debits.Keys;
    while todo != {}
      invariant todo <= debits.Keys
      invariant forall c :: c in debits && c !in todo ==> debits[c] == Lookup(credits, c)
    {
      var curr :| curr in todo;
      if debits[curr] != Lookup(credits, curr) {
        return false;
      }
      todo := todo - {curr};
    }
    todo := credits.Keys;
    while todo != {}
      invariant todo <= credits.Keys
      invariant credits.Keys - todo <= debits.Keys
    {
      var curr :| curr in todo;
      if curr !in debits {
        return false;
      }
      todo := todo - {curr};
    }
    return true;
  }

  /** What ValidatePostings accepts, on the postings alone: per currency, totals equal modulo 2^64. */
  ghost predicate Valid(ps: seq<Posting>) {
    && |ps| >= 2
    && AllWellFormed(ps)
    && forall c :: BalancedIn(ps, c)
  }

  method ValidatePostings(ps: seq<Posting>) returns (ok: bool)
    ensures ok <==> Valid(ps)
  {
    if |ps| < 2 {
      return false;
    }
    var debits, credits;
    ok, debits, credits := AccumulatePostingTotals(ps);
    if ok {
      ok := CheckCurrencyEquilibrium(debits, credits);
      EquilibriumIsBalance(ps, debits, credits);
    }
  }

  lemma EquilibriumIsBalance(ps: seq<Posting>, debits: map<string, int>, credits: map<string, int>)
    requires HoldsTotals(debits, ps, DEBIT) && HoldsTotals(credits, ps, CREDIT)
    ensures (forall c :: BalancedIn(ps, c)) <==>
            (forall c :: c in debits ==> debits[c] == Lookup(credits, c)) && credits.Keys <= debits.Keys
  {
    forall c ensures BalancedIn(ps, c) <==>
                     (c in debits ==> debits[c] == Lookup(credits, c)) && (c in credits ==> c in debits)
    {
      assert Lookup(debits, c) == Wrap(Total(ps, DEBIT, c)) && Lookup(credits, c) == Wrap(Total(ps, CREDIT, c));
    }
  }

  // ---- what validation guarantees ----

  lemma {:induction false} TotalOfUnmentioned(ps: seq<Posting>, direction: string, c: string)
    requires !Mentions(ps, direction, c)
    ensures Total(ps, direction, c) == 0
  {
    if ps != [] {
      var front := ps[..|ps| - 1];
      assert ps == front + [ps[|ps| - 1]];
      MentionsExtend(front, ps[|ps| - 1], direction, c);
      TotalOfUnmentioned(front, direction, c);
    }
  }

  lemma {:induction false} TotalOfMentioned(ps: seq<Posting>, direction: string, c: string)
    requires AllWellFormed(ps)
    ensures Total(ps, direction, c) >= 0
    ensures Mentions(ps, direction, c) <==> Total(ps, direction, c) > 0
  {
    if ps != [] {
      var front := ps[..|ps| - 1];
      assert ps == front + [ps[|ps| - 1]];
      MentionsExtend(front, ps[|ps| - 1], direction, c);
      TotalOfMentioned(front, direction, c);
    }
  }

  /** Valid entries have equal wrapped totals in every currency, mentioned or not. */
  lemma ValidIsBalancedModulo(ps: seq<Posting>, c: string)
    requires Valid(ps)
    ensures Wrap(Total(ps, DEBIT, c)) == Wrap(Total(ps, CREDIT, c))
  {
    assert BalancedIn(ps, c);
    if !Mentions(ps, DEBIT, c) {
      TotalOfUnmentioned(ps, DEBIT, c);
      TotalOfUnmentioned(ps, CREDIT, c);
    }
  }

  ghost predicate TotalsFit(ps: seq<Posting>) {
    forall c :: Total(ps, DEBIT, c) < TWO64 && Total(ps, CREDIT, c) < TWO64
  }

  /** The documented rule, debits exactly equal credits per currency, is what is checked as long as no
      currency total reaches 2^64. */
  lemma ValidIsExactBalance(ps: seq<Posting>)
    requires TotalsFit(ps)
    ensures Valid(ps) <==>
            && |ps| >= 2
            && (forall i :: 0 <= i < |ps| ==>
                  && ps[i].accountId != "" && ps[i].amount > 0 && ps[i].currency != ""
                  && (ps[i].direction == "DEBIT" || ps[i].direction == "CREDIT"))
            && forall c :: Total(ps, DEBIT, c) == Total(ps, CREDIT, c)
  {
    if AllWellFormed(ps) {
      if c :| !BalancedIn(ps, c) {
        BalancedInIsExact(ps, c);
      } else if c :| Total(ps, DEBIT, c) != Total(ps, CREDIT, c) {
        BalancedInIsExact(ps, c);
      }
    }
  }

  /** What validation asks of one currency. */
  ghost predicate BalancedIn(ps: seq<Posting>, c: string) {
    && (Mentions(ps, DEBIT, c) ==> Wrap(Total(ps, DEBIT, c)) == Wrap(Total(ps, CREDIT, c)))
    && (Mentions(ps, CREDIT, c) ==> Mentions(ps, DEBIT, c))
  }

  lemma BalancedInIsExact(ps: seq<Posting>, c: string)
    requires AllWellFormed(ps) && Total(ps, DEBIT, c) < TWO64 && Total(ps, CREDIT, c) < TWO64
    ensures BalancedIn(ps, c) <==> Total(ps, DEBIT, c) == Total(ps, CREDIT, c)
  {
    TotalOfMentioned(ps, DEBIT, c);
    TotalOfMentioned(ps, CREDIT, c);
    WrapEqual(Total(ps, DEBIT, c), Total(ps, CREDIT, c));
  }

  /** Past that bound it is not: three positive int64 debits summing to 2^64, and no credit, are accepted. */
  lemma WrappedEntryIsAccepted()
    ensures var big := Posting("A", CUSTOMER_LIABILITY, DEBIT, TWO63 - 1, "USD");
            var ps := [big, big, big.(amount := 2)];
            Valid(ps) && Total(ps, DEBIT, "USD") == TWO64 && Total(ps, CREDIT, "USD") == 0
  {
    var big := Posting("A", CUSTOMER_LIABILITY, DEBIT, TWO63 - 1, "USD");
    var ps := [big, big, big.(amount := 2)];
    assert ps[..2] == [big, big] && ps[..2][..1] == [big] && ps[..2][..1][..0] == [];
    assert Total([big], DEBIT, "USD") == TWO63 - 1;
    assert Total([big, big], DEBIT, "USD") == 2 * (TWO63 - 1);
    assert Total(ps, DEBIT, "USD") == TWO64;
    TotalOfUnmentioned(ps, CREDIT, "USD");
    forall c ensures BalancedIn(ps, c) {
      if Mentions(ps, DEBIT, c) {
        assert c == "USD";
      }
    }
  }

  // ---- the postings of a transfer ----

  function Leg(account: string, accountType: string, direction: string, amount: int, currency: string): Posting {
    Posting(account, accountType, direction, amount, currency)
  }

  predicate HasPrefix(s: string, prefix: string) {
    prefix <= s
  }

  function AccountType(account: string): string {
    if HasPrefix(account, "EXTERNAL_CLEARING_") || HasPrefix(account, "CLEARING_")
        || HasPrefix(account, "FX_LIQUIDITY_POOL_")
    then SETTLEMENT_ASSET else CUSTOMER_LIABILITY
  }

  function FxPool(currency: string): string {
    "FX_LIQUIDITY_POOL_" + currency
  }

  predicate SingleCurrency(amount: int, currency: string, destAmount: int, destCurrency: string) {
    destCurrency == "" || destCurrency == currency || destAmount <= 0
  }

  /** The legs built by CreateMultiCurrencyTransferPostings, before validation. */
  function TransferLegs(source: string, dest: string, amount: int, currency: string,
                        destAmount: int, destCurrency: string): seq<Posting> {
    if SingleCurrency(amount, currency, destAmount, destCurrency) then
      [Leg(source, AccountType(source), DEBIT, amount, currency),
       Leg(dest, AccountType(dest), CREDIT, amount, currency)]
    else
      [Leg(source, CUSTOMER_LIABILITY, DEBIT, amount, currency),
       Leg(FxPool(currency), SETTLEMENT_ASSET, CREDIT, amount, currency),
       Leg(FxPool(destCurrency), SETTLEMENT_ASSET, DEBIT, destAmount, destCurrency),
       Leg(dest, CUSTOMER_LIABILITY, CREDIT, destAmount, destCurrency)]
  }

  method CreateMultiCurrencyTransferPostings(source: string, dest: string, amount: int, currency: string,
                                             destAmount: int, destCurrency: string)
    returns (r: Option<seq<Posting>>)
    ensures var legs := TransferLegs(source, dest, amount, currency, destAmount, destCurrency);
            r == if Postable(source, dest, amount, currency) then Some(legs) else None
  {
    var legs := TransferLegs(source, dest, amount, currency, destAmount, destCurrency);
    var ok := ValidatePostings(legs);
    TransferLegsBalance(source, dest, amount, currency, destAmount, destCurrency);
    return if ok then Some(legs) else None;
  }

  predicate Postable(source: string, dest: string, amount: int, currency: string) {
    source != "" && dest != "" && amount > 0 && currency != ""
  }

  lemma {:induction false} TotalFromFront(ps: seq<Posting>, direction: string, c: string)
    requires ps != []
    ensures Total(ps, direction, c) == AmountIf(ps[0], direction, c) + Total(ps[1..], direction, c)
    decreases |ps|
  {
    if |ps| > 1 {
      var front := ps[..|ps| - 1];
      TotalFromFront(front, direction, c);
      assert front[1..] == ps[1..][..|ps| - 2];
    }
  }

  /** Totals of two and of four legs. */
  lemma TotalOfLegs(ps: seq<Posting>, direction: string, c: string)
    ensures |ps| == 2 ==> Total(ps, direction, c) == AmountIf(ps[0], direction, c) + AmountIf(ps[1], direction, c)
    ensures |ps| == 4 ==> Total(ps, direction, c) == AmountIf(ps[0], direction, c) + AmountIf(ps[1], direction, c)
                                                     + AmountIf(ps[2], direction, c) + AmountIf(ps[3], direction, c)
  {
    if |ps| == 2 || |ps| == 4 {
      TotalFromFront(ps, direction, c);
      TotalFromFront(ps[1..], direction, c);
      assert ps[1..][1..] == ps[2..];
      if |ps| == 4 {
        TotalFromFront(ps[2..], direction, c);
        TotalFromFront(ps[2..][1..], direction, c);
        assert ps[2..][1..][1..] == [];
      }
    }
  }

  /** Transfer postings are exactly balanced in every currency, and pass validation exactly when the source,
      destination, amount and currency are usable: the destination side never makes them fail. */
  lemma TransferLegsBalance(source: string, dest: string, amount: int, currency: string, destAmount: int,
                            destCurrency: string)
    ensures var legs := TransferLegs(source, dest, amount, currency, destAmount, destCurrency);
            && (forall c :: Total(legs, DEBIT, c) == Total(legs, CREDIT, c))
            && (Valid(legs) <==> Postable(source, dest, amount, currency))
  {
    var legs := TransferLegs(source, dest, amount, currency, destAmount, destCurrency);
    forall c ensures Total(legs, DEBIT, c) == Total(legs, CREDIT, c) {
      TotalOfLegs(legs, DEBIT, c);
      TotalOfLegs(legs, CREDIT, c);
    }
    if Postable(source, dest, amount, currency) {
      assert AllWellFormed(legs);
      forall c ensures BalancedIn(legs, c) {
        if Mentions(legs, CREDIT, c) {
          assert c == legs[0].currency || (|legs| == 4 && c == legs[2].currency);
        }
      }
    } else {
      assert !WellFormed(legs[0]) || !WellFormed(legs[|legs| - 1]);
    }
  }
}
