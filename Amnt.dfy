/**
 * Amnt: an amount of one currency spread over named accounts (position, fee,
 * margin, ...), plus a payload of named properties. Account values are kept
 * in integer units of 10^-scale; an account whose value rounds to zero is
 * removed, so no stored value is zero. The public operations leave the
 * receiver alone and build a fresh clone, which they change in place.
 */
module Amnt {
  import opened Wrappers
  import Arith

  const POS := "pos"
  const MARGIN := "mgn"
  const DEPO := "depo"

  /**
   * A decimal number: unscaled * 10^-exp, as BigDecimal.valueOf gives a
   * double (here with a scale of zero or more).
   */
  datatype Decimal = Decimal(unscaled: int, exp: nat)

  /** Everything an Amnt holds: account values in units of 10^-scale. */
  datatype Amount = Amount(symbol: string, scale: nat, values: map<string, int>, payload: map<string, Decimal>)

  function Pow10(n: nat): (r: int)
    ensures r >= 1
  {
    if n == 0 then 1 else 10 * Pow10(n - 1)
  }

  function Abs(x: int): nat
  {
    if x < 0 then -x else x
  }

  /** BigDecimal.add: exact, at the larger of the two scales. */
  function Plus(a: Decimal, b: Decimal): Decimal
  {
    if a.exp == b.exp then Decimal(a.unscaled + b.unscaled, a.exp)
    else if a.exp < b.exp then Decimal(a.unscaled * Pow10(b.exp - a.exp) + b.unscaled, b.exp)
    else Decimal(a.unscaled + b.unscaled * Pow10(a.exp - b.exp), a.exp)
  }

  /** compareTo(..) == 0: the same number, whatever the scales. */
  predicate SameNumber(a: Decimal, b: Decimal)
  {
    a.unscaled * Pow10(b.exp) == b.unscaled * Pow10(a.exp)
  }

  /** Integer division rounded half to even. */
  function DivHalfEven(n: int, d: int): int
    requires d >= 1
  {
    var q := n / d;
    var r := n % d;
    if 2 * r < d then q
    else if 2 * r > d then q + 1
    else if q % 2 == 0 then q else q + 1
  }

  /** The rounded quotient is within half of d of n / d, and a tie goes to the even quotient. */
  lemma DivHalfEvenNear(n: int, d: int)
    requires d >= 1
    ensures var q := DivHalfEven(n, d);
            && -d <= 2 * (n - d * q) <= d
            && ((2 * (n - d * q) == d || 2 * (n - d * q) == -d) ==> q % 2 == 0)
  {
    var q := n / d;
    var r := n % d;
    assert n == d * q + r;
    assert d * (q + 1) == d * q + d;
  }

  /** setScale(scale, HALF_EVEN): the number in units of 10^-scale, rounded half to even. */
  function Rescale(v: Decimal, scale: nat): int
  {
    if v.exp == scale then v.unscaled
    else if v.exp < scale then v.unscaled * Pow10(scale - v.exp)
    else DivHalfEven(v.unscaled, Pow10(v.exp - scale))
  }

  /** minVal: one unit, 10^-scale. */
  function MinVal(scale: nat): Decimal
  {
    Decimal(1, scale)
  }

  /** Math.abs(val) < minVal: |val| * 10^scale < 1. */
  predicate BelowMinVal(val: Decimal, scale: nat)
  {
    Abs(val.unscaled) * Pow10(scale) < Pow10(val.exp)
  }

  /** get / pos: the units of an account, zero when it is absent. */
  function Units(m: map<string, int>, account: string): int
  {
    if account in m then m[account] else 0
  }

  /** The value of an account, as a decimal at the amount's scale. */
  function Value(a: Amount, account: string): Decimal
  {
    Decimal(Units(a.values, account), a.scale)
  }

  predicate NoZero(m: map<string, int>)
  {
    forall k :: k in m ==> m[k] != 0
  }

  /** Store units under an account, or remove the account for zero. */
  function WithUnits(m: map<string, int>, account: string, u: int): map<string, int>
  {
    if u == 0 then m - {account} else m[account := u]
  }

  /** implSetVal: the value rounded to the scale replaces the account. */
  function SetValue(a: Amount, val: Decimal, account: string): Amount
  {
    a.(values := WithUnits(a.values, account, Rescale(val, a.scale)))
  }

  /** implAdd: the account's value plus val, set as by implSetVal. */
  function AddValue(a: Amount, val: Decimal, account: string): Amount
  {
    SetValue(a, Plus(Value(a, account), val), account)
  }

  /** rcv(val, account): zero changes nothing; a nonzero value below minVal is refused. */
  function Received(a: Amount, val: Decimal, account: string): Result<Amount>
  {
    if val.unscaled == 0 then Ok(a)
    else if BelowMinVal(val, a.scale) then Err(IllegalArgument)
    else Ok(AddValue(a, val, account))
  }

  /** Per-account sums as add leaves them: accounts only in m untouched, the others summed and dropped at zero. */
  function SumMaps(m: map<string, int>, n: map<string, int>): map<string, int>
  {
    map k | k in m.Keys + n.Keys && (k !in n || Units(m, k) + n[k] != 0) :: Units(m, k) + Units(n, k)
  }

  /** The entries of n outside the given keys: the accounts add has already folded in. */
  function Outside(n: map<string, int>, remaining: set<string>): map<string, int>
  {
    map j | j in n && j !in remaining :: n[j]
  }

  /** One account of SumMaps. */
  lemma SumMapsAt(m: map<string, int>, n: map<string, int>, j: string)
    ensures j in SumMaps(m, n) <==> (j in m && j !in n) || (j in n && Units(m, j) + n[j] != 0)
    ensures j in SumMaps(m, n) ==> SumMaps(m, n)[j] == Units(m, j) + Units(n, j)
  {
  }

  lemma OutsideStep(n: map<string, int>, remaining: set<string>, k: string)
    requires k in remaining && k in n
    ensures k !in Outside(n, remaining)
    ensures Outside(n, remaining - {k}) == Outside(n, remaining)[k := n[k]]
  {
  }

  /** Summing in one account that was not yet summed. */
  lemma SumMapsInsert(m: map<string, int>, o: map<string, int>, k: string, v: int)
    requires k !in o
    ensures Units(SumMaps(m, o), k) == Units(m, k)
    ensures SumMaps(m, o[k := v]) == WithUnits(SumMaps(m, o), k, Units(m, k) + v)
  {
    var cur := SumMaps(m, o);
    var w := WithUnits(cur, k, Units(m, k) + v);
    var s := SumMaps(m, o[k := v]);
    SumMapsAt(m, o, k);
    forall j
      ensures (j in s <==> j in w) && (j in s ==> s[j] == w[j])
    {
      SumMapsAt(m, o, j);
      SumMapsAt(m, o[k := v], j);
    }
  }

  /** Folding one more account of n into the partial sum. */
  lemma SumMapsStep(m: map<string, int>, n: map<string, int>, remaining: set<string>, k: string)
    requires remaining <= n.Keys && k in remaining
    ensures var cur := SumMaps(m, Outside(n, remaining));
            && Units(cur, k) == Units(m, k)
            && WithUnits(cur, k, Units(cur, k) + n[k]) == SumMaps(m, Outside(n, remaining - {k}))
  {
    OutsideStep(n, remaining, k);
    SumMapsInsert(m, Outside(n, remaining), k, n[k]);
  }

  /** add: symbols and scales must agree; values are summed and the argument's payload entries win. */
  function Merged(a: Amount, b: Amount): Result<Amount>
  {
    if a.symbol != b.symbol then Err(IllegalArgument)
    else if a.scale != b.scale then Err(IllegalArgument)
    else Ok(Amount(a.symbol, a.scale, SumMaps(a.values, b.values), a.payload + b.payload))
  }

  function Negated(a: Amount): Amount
  {
    a.(values := map k | k in a.values :: -a.values[k])
  }

  /** clone(filter): the accounts the filter accepts. */
  function Kept(a: Amount, filter: string -> bool): Amount
  {
    a.(values := map k | k in a.values && filter(k) :: a.values[k])
  }

  ghost function Pick(keys: set<string>): string
    requires keys != {}
  {
    var k :| k in keys; k
  }

  /** The sum of the units of the given accounts. */
  ghost function SumOn(keys: set<string>, m: map<string, int>): int
    decreases keys
  {
    if keys == {} then 0
    else
      var k := Pick(keys);
      Units(m, k) + SumOn(keys - {k}, m)
  }

  /** total: all accounts. */
  ghost function SumOfAll(a: Amount): int
  {
    SumOn(a.values.Keys, a.values)
  }

  /** rest: all accounts but POS. */
  ghost function SumOfRest(a: Amount): int
  {
    SumOn(a.values.Keys - {POS}, a.values)
  }

  /** total(filter): the accounts the filter accepts. */
  ghost function SumWhere(a: Amount, filter: string -> bool): int
  {
    SumOn((set k | k in a.values && filter(k)), a.values)
  }

  lemma {:induction false} SumOnRemove(keys: set<string>, m: map<string, int>, k: string)
    requires k in keys
    ensures SumOn(keys, m) == Units(m, k) + SumOn(keys - {k}, m)
    decreases |keys|
  {
    var j := Pick(keys);
    if j != k {
      assert keys - {j} - {k} == keys - {k} - {j};
      SumOnRemove(keys - {j}, m, k);
      SumOnRemove(keys - {k}, m, j);
    }
  }

  /** Sums are linear: where s is m plus n account by account, so are their sums. */
  lemma {:induction false} SumOnLinear(keys: set<string>, m: map<string, int>, n: map<string, int>, s: map<string, int>)
    requires forall k :: k in keys ==> Units(s, k) == Units(m, k) + Units(n, k)
    ensures SumOn(keys, s) == SumOn(keys, m) + SumOn(keys, n)
    decreases |keys|
  {
    if keys != {} {
      var k := Pick(keys);
      SumOnLinear(keys - {k}, m, n, s);
      SumOnRemove(keys, m, k);
      SumOnRemove(keys, n, k);
    }
  }

  lemma SumOnEmptyMap(keys: set<string>)
    ensures SumOn(keys, map[]) == 0
    decreases |keys|
  {
    if keys != {} {
      SumOnEmptyMap(keys - {Pick(keys)});
    }
  }

  /** The sum over a set is the sum over a part plus the sum over the rest. */
  lemma {:induction false} SumOnSplit(keys: set<string>, part: set<string>, m: map<string, int>)
    requires part <= keys
    ensures SumOn(keys, m) == SumOn(part, m) + SumOn(keys - part, m)
    decreases |part|
  {
    if part == {} {
      assert keys - part == keys;
    } else {
      var k := Pick(part);
      SumOnRemove(keys, m, k);
      SumOnRemove(part, m, k);
      assert keys - {k} - (part - {k}) == keys - part;
      SumOnSplit(keys - {k}, part - {k}, m);
    }
  }

  lemma SumOnZeros(keys: set<string>, m: map<string, int>)
    requires forall k :: k in keys ==> Units(m, k) == 0
    ensures SumOn(keys, m) == 0
  {
    SumOnEmptyMap(keys);
    SumOnLinear(keys, map[], map[], m);
  }

  lemma SumOnAgree(keys: set<string>, m: map<string, int>, n: map<string, int>)
    requires forall k :: k in keys ==> Units(m, k) == Units(n, k)
    ensures SumOn(keys, m) == SumOn(keys, n)
  {
    SumOnEmptyMap(keys);
    SumOnLinear(keys, n, map[], m);
  }

  /**
   * implSetVal: the account holds the value rounded to the scale and is
   * removed when that is zero; no other account changes, and a map without
   * zeros keeps none.
   */
  lemma SetValueSpec(a: Amount, val: Decimal, account: string)
    ensures var r := SetValue(a, val, account);
            var u := Rescale(val, a.scale);
            && r.symbol == a.symbol && r.scale == a.scale && r.payload == a.payload
            && Units(r.values, account) == u && (account in r.values <==> u != 0)
            && (forall j :: j != account ==> (j in r.values <==> j in a.values) && Units(r.values, j) == Units(a.values, j))
            && (NoZero(a.values) ==> NoZero(r.values))
  {
  }

  /**
   * The units implSetVal stores: exact for a value with no more decimals than
   * the scale, else within half a unit of it (2|u * 10^k - val| <= 10^k, for
   * the k extra decimals), ties going to the even unit.
   */
  lemma SetValueNear(a: Amount, val: Decimal, account: string)
    ensures var u := Units(SetValue(a, val, account).values, account);
            && (val.exp <= a.scale ==> u == val.unscaled * Pow10(a.scale - val.exp))
            && (val.exp > a.scale ==>
                  var d := Pow10(val.exp - a.scale);
                  && -d <= 2 * (d * u - val.unscaled) <= d
                  && ((2 * (d * u - val.unscaled) == d || 2 * (d * u - val.unscaled) == -d) ==> u % 2 == 0))
  {
    var u := Units(SetValue(a, val, account).values, account);
    assert u == Rescale(val, a.scale);
    if val.exp > a.scale {
      var d := Pow10(val.exp - a.scale);
      assert u == DivHalfEven(val.unscaled, d);
      DivHalfEvenNear(val.unscaled, d);
      assert 2 * (d * u - val.unscaled) == -2 * (val.unscaled - d * u);
    }
  }

  /** Adding whole units at the amount's own scale moves the account by exactly that many. */
  lemma AddUnitsExact(a: Amount, units: int, account: string)
    ensures AddValue(a, Decimal(units, a.scale), account)
            == a.(values := WithUnits(a.values, account, Units(a.values, account) + units))
  {
    var x := Units(a.values, account);
    assert Plus(Value(a, account), Decimal(units, a.scale)) == Decimal(x + units, a.scale);
  }

  /**
   * rcv(val, account): zero gives the amount back unchanged; a nonzero value
   * whose magnitude is below minVal is refused; otherwise the account grows by
   * val.
   */
  lemma ReceivedSpec(a: Amount, val: Decimal, account: string)
    ensures val.unscaled == 0 ==> Received(a, val, account) == Ok(a)
    ensures Received(a, val, account).Err? <==>
              val.unscaled != 0 && Abs(val.unscaled) * Pow10(a.scale) < MinVal(a.scale).unscaled * Pow10(val.exp)
    ensures Received(a, val, account).Err? ==> Received(a, val, account).error == IllegalArgument
    ensures val.unscaled != 0 && Received(a, val, account).Ok? ==> Received(a, val, account).value == AddValue(a, val, account)
  {
  }

  /** A nonzero value with no more decimals than the scale is at least minVal, so rcv accepts it. */
  lemma ReceivedWholeUnits(a: Amount, val: Decimal, account: string)
    requires val.exp <= a.scale && val.unscaled != 0
    ensures Received(a, val, account) == Ok(AddValue(a, val, account))
  {
    WholeUnitsNotBelow(val, a.scale);
  }

  lemma WholeUnitsNotBelow(val: Decimal, scale: nat)
    requires val.exp <= scale && val.unscaled != 0
    ensures !BelowMinVal(val, scale)
  {
    PowMonotone(val.exp, scale);
    Arith.MulAtLeast(Pow10(scale), Abs(val.unscaled));
  }

  /** Receiving zero through the clone would have changed nothing either: implAdd of zero keeps an amount without zeros. */
  lemma AddZeroIdentity(a: Amount, account: string)
    requires NoZero(a.values)
    ensures AddValue(a, Decimal(0, a.scale), account) == a
  {
    AddUnitsExact(a, 0, account);
    if account in a.values {
      assert a.values[account := a.values[account]] == a.values;
    } else {
      assert a.values - {account} == a.values;
    }
  }

  lemma {:induction false} PowMonotone(m: nat, n: nat)
    requires m <= n
    ensures Pow10(m) <= Pow10(n)
    decreases n
  {
    if m < n {
      PowMonotone(m, n - 1);
    }
  }

  /**
   * add: refused for a different symbol or scale; otherwise every account
   * holds the sum of both operands' units, no zero is introduced, the
   * argument's payload wins, and the total is the sum of both totals.
   */
  lemma MergedSpec(a: Amount, b: Amount)
    ensures Merged(a, b).Err? <==> a.symbol != b.symbol || a.scale != b.scale
    ensures Merged(a, b).Err? ==> Merged(a, b).error == IllegalArgument
    ensures Merged(a, b).Ok? ==>
              var r := Merged(a, b).value;
              && r.symbol == a.symbol && r.scale == a.scale
              && (forall k :: Units(r.values, k) == Units(a.values, k) + Units(b.values, k))
              && (NoZero(a.values) ==> NoZero(r.values))
              && (forall k :: k in b.payload ==> k in r.payload && r.payload[k] == b.payload[k])
              && (forall k :: k in a.payload && k !in b.payload ==> k in r.payload && r.payload[k] == a.payload[k])
              && r.payload.Keys == a.payload.Keys + b.payload.Keys
              && SumOfAll(r) == SumOfAll(a) + SumOfAll(b)
  {
    if Merged(a, b).Ok? {
      var r := Merged(a, b).value;
      var all := a.values.Keys + b.values.Keys;
      assert r.values.Keys <= all;
      SumOnSplit(all, r.values.Keys, r.values);
      SumOnZeros(all - r.values.Keys, r.values);
      SumOnLinear(all, a.values, b.values, r.values);
      SumOnSplit(all, a.values.Keys, a.values);
      SumOnZeros(all - a.values.Keys, a.values);
      SumOnSplit(all, b.values.Keys, b.values);
      SumOnZeros(all - b.values.Keys, b.values);
    }
  }

  /** negate: the same accounts and payload with every value negated; twice is the identity; the total negates. */
  lemma {:induction false} NegatedSpec(a: Amount)
    ensures Negated(a).values.Keys == a.values.Keys && Negated(a).payload == a.payload
    ensures forall k :: Units(Negated(a).values, k) == -Units(a.values, k)
    ensures NoZero(a.values) ==> NoZero(Negated(a).values)
    ensures Negated(Negated(a)) == a
    ensures SumOfAll(Negated(a)) == -SumOfAll(a)
  {
    var n := Negated(a);
    assert Negated(n).values == a.values;
    SumOnEmptyMap(a.values.Keys);
    SumOnLinear(a.values.Keys, a.values, n.values, map[]);
  }

  /**
   * total, rest and pos: the total is the rest plus the position; the
   * accounts a filter accepts and those it refuses make up the total; and
   * clone(filter) keeps exactly the accepted accounts, unchanged, so its
   * total is total(filter).
   */
  lemma {:induction false} TotalsSpec(a: Amount, filter: string -> bool, other: string -> bool)
    ensures SumOfAll(a) == SumOfRest(a) + Units(a.values, POS)
    ensures (forall k :: other(k) <==> !filter(k)) ==> SumOfAll(a) == SumWhere(a, filter) + SumWhere(a, other)
    ensures forall k :: k in Kept(a, filter).values <==> k in a.values && filter(k)
    ensures forall k :: k in Kept(a, filter).values ==> Kept(a, filter).values[k] == a.values[k]
    ensures Kept(a, filter).payload == a.payload
    ensures SumOfAll(Kept(a, filter)) == SumWhere(a, filter)
  {
    var keys := a.values.Keys;
    if POS in keys {
      SumOnRemove(keys, a.values, POS);
    } else {
      assert keys - {POS} == keys;
    }
    var yes := set k | k in a.values && filter(k);
    var no := set k | k in a.values && !filter(k);
    SumOnSplit(keys, yes, a.values);
    if forall k :: other(k) <==> !filter(k) {
      assert keys - yes == (set k | k in a.values && other(k));
    }
    var kept := Kept(a, filter);
    assert kept.values.Keys == yes;
    SumOnAgree(yes, kept.values, a.values);
  }

  /** isFlat and isFlatPos: an amount with no accounts is flat. */
  lemma FlatWhenEmpty(a: Amount)
    requires a.values == map[]
    ensures SumOfAll(a) == 0 && SumOfRest(a) == 0 && Units(a.values, POS) == 0
  {
  }

  class Amnt {
    const symbol: string
    const scale: nat
    var values: map<string, int>
    var payload: map<string, Decimal>

    function Contents(): Amount
      reads this
    {
      Amount(symbol, scale, values, payload)
    }

    /** The JSON constructor: null maps are empty. */
    constructor (symbol: string, scale: nat, values: Option<map<string, int>>, payload: Option<map<string, Decimal>>)
      ensures Contents() == Amount(symbol, scale, if values.Some? then values.value else map[],
                                   if payload.Some? then payload.value else map[])
    {
      this.symbol := symbol;
      this.scale := scale;
      this.values := if values.Some? then values.value else map[];
      this.payload := if payload.Some? then payload.value else map[];
    }

    method Clone() returns (c: Amnt)
      ensures fresh(c) && c.Contents() == Contents()
    {
      c := new Amnt(symbol, scale, Some(values), Some(payload));
    }

    /** getMinVal: one unit, 10^-scale. */
    method GetMinVal() returns (r: Decimal)
      ensures r.unscaled == 1 && r.exp == scale
    {
      r := Decimal(1, scale);
    }

    method ImplSetVal(val: Decimal, account: string)
      modifies this
      ensures Contents() == SetValue(old(Contents()), val, account)
    {
      var u := Rescale(val, scale);
      if u == 0 {
        values := values - {account};
      } else {
        values := values[account := u];
      }
    }

    method ImplAdd(val: Decimal, account: string)
      modifies this
      ensures Contents() == AddValue(old(Contents()), val, account)
    {
      var current := if account in values then values[account] else 0;
      ImplSetVal(Plus(Decimal(current, scale), val), account);
    }

    /** rcv(val): always a clone, with val added to POS. */
    method RcvPos(val: Decimal) returns (r: Amnt)
      ensures fresh(r) && r.Contents() == AddValue(Contents(), val, POS)
    {
      r := Clone();
      r.ImplAdd(val, POS);
    }

    /** rcv(val, account): the receiver itself for zero; otherwise a changed clone, or IllegalArgumentException. */
    method Rcv(val: Decimal, account: string) returns (r: Result<Amnt>)
      ensures val.unscaled == 0 ==> r == Ok(this)
      ensures Received(Contents(), val, account).Err? ==> r == Err(Received(Contents(), val, account).error)
      ensures val.unscaled != 0 && Received(Contents(), val, account).Ok? ==>
                r.Ok? && fresh(r.value) && r.value.Contents() == Received(Contents(), val, account).value
    {
      if val.unscaled == 0 {
        return Ok(this);
      }
      var m := GetMinVal();
      if Abs(val.unscaled) * Pow10(scale) < m.unscaled * Pow10(val.exp) {
        return Err(IllegalArgument);
      }
      var c := Clone();
      c.ImplAdd(val, account);
      return Ok(c);
    }

    /** pay(val, account) is rcv(-val, account). */
    method Pay(val: Decimal, account: string) returns (r: Result<Amnt>)
      ensures var neg := Decimal(-val.unscaled, val.exp);
              && (val.unscaled == 0 ==> r == Ok(this))
              && (Received(Contents(), neg, account).Err? ==> r == Err(Received(Contents(), neg, account).error))
              && (val.unscaled != 0 && Received(Contents(), neg, account).Ok? ==>
                    r.Ok? && fresh(r.value) && r.value.Contents() == Received(Contents(), neg, account).value)
    {
      r := Rcv(Decimal(-val.unscaled, val.exp), account);
    }

    /** set(val, account): the receiver itself when the account already holds val, else a clone holding it. */
    method Set(val: Decimal, account: string) returns (r: Amnt)
      ensures SameNumber(Value(Contents(), account), val) ==> r == this
      ensures !SameNumber(Value(Contents(), account), val) ==> fresh(r) && r.Contents() == SetValue(Contents(), val, account)
    {
      var current := if account in values then values[account] else 0;
      if current * Pow10(val.exp) == val.unscaled * Pow10(scale) {
        return this;
      }
      r := Clone();
      r.ImplSetVal(val, account);
    }

    /** setProp: a clone with the payload entry put. */
    method SetProp(val: Decimal, prop: string) returns (r: Amnt)
      ensures fresh(r) && r.Contents() == Contents().(payload := payload[prop := val])
    {
      r := Clone();
      r.payload := r.payload[prop := val];
    }

    method GetProp(prop: string) returns (r: Option<Decimal>)
      ensures prop in payload <==> r.Some?
      ensures r.Some? ==> r.value == payload[prop]
    {
      r := if prop in payload then Some(payload[prop]) else None;
    }

    /** get(account): zero for an absent account. */
    method Get(account: string) returns (r: int)
      ensures account !in values ==> r == 0
      ensures account in values ==> r == values[account]
    {
      r := if account in values then values[account] else 0;
    }

    method Pos() returns (r: int)
      ensures r == Units(values, POS)
    {
      r := Get(POS);
    }

    /** The stream reduction behind total, rest and total(filter). */
    method SumOver(keys: set<string>) returns (r: int)
      requires keys <= values.Keys
      ensures r == SumOn(keys, values)
    {
      r := 0;
      var remaining := keys;
      while remaining != {}
        invariant remaining <= keys
        invariant r + SumOn(remaining, values) == SumOn(keys, values)
        decreases |remaining|
      {
        var k :| k in remaining;
        SumOnRemove(remaining, values, k);
        r := r + values[k];
        remaining := remaining - {k};
      }
    }

    method Total() returns (r: int)
      ensures r == SumOfAll(Contents())
    {
      r := SumOver(values.Keys);
    }

    method Rest() returns (r: int)
      ensures r == SumOfRest(Contents())
    {
      r := SumOver(values.Keys - {POS});
    }

    method TotalFiltered(filter: string -> bool) returns (r: int)
      ensures r == SumWhere(Contents(), filter)
    {
      r := SumOver((set k | k in values && filter(k)));
    }

    method IsFlat() returns (r: bool)
      ensures r <==> SumOfAll(Contents()) == 0
    {
      var t := Total();
      r := t == 0;
    }

    method IsFlatPos() returns (r: bool)
      ensures r <==> POS !in values || values[POS] == 0
    {
      var p := Pos();
      r := p == 0;
    }

    /** The accounts of m added one by one, as add does with its argument's values. */
    method FoldIn(m: map<string, int>)
      modifies this
      ensures Contents() == old(Contents()).(values := SumMaps(old(values), m))
    {
      var remaining := m.Keys;
      while remaining != {}
        invariant remaining <= m.Keys
        invariant payload == old(payload)
        invariant values == SumMaps(old(values), Outside(m, remaining))
        decreases |remaining|
      {
        var k :| k in remaining;
        SumMapsStep(old(values), m, remaining, k);
        AddUnitsExact(Contents(), m[k], k);
        ImplAdd(Decimal(m[k], scale), k);
        remaining := remaining - {k};
      }
      assert Outside(m, remaining) == m;
    }

    /** add: IllegalArgumentException for another symbol or scale; else a clone with both amounts' accounts summed. */
    method Add(amnt: Amnt) returns (r: Result<Amnt>)
      ensures Merged(Contents(), amnt.Contents()).Err? ==> r == Err(Merged(Contents(), amnt.Contents()).error)
      ensures Merged(Contents(), amnt.Contents()).Ok? ==>
                r.Ok? && fresh(r.value) && r.value.Contents() == Merged(Contents(), amnt.Contents()).value
    {
      if symbol != amnt.symbol || scale != amnt.scale {
        return Err(IllegalArgument);
      }
      var res := Clone();
      res.FoldIn(amnt.values);
      res.payload := res.payload + amnt.payload;
      return Ok(res);
    }

    /** negate: a clone with every value negated. */
    method Negate() returns (r: Amnt)
      ensures fresh(r) && r.Contents() == Negated(Contents())
    {
      r := Clone();
      r.values := map k | k in r.values :: -r.values[k];
    }

    /** clone(filter): a clone without the accounts the filter refuses. */
    method CloneWhere(filter: string -> bool) returns (r: Amnt)
      ensures fresh(r) && r.Contents() == Kept(Contents(), filter)
    {
      r := Clone();
      r.values := map k | k in r.values && filter(k) :: r.values[k];
    }
  }
}
