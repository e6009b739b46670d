/** Billing of src/calculator.rs over exact reals: discounts, compute units and overdue amounts. */
module Calculators {
  import opened GridErrors
  import L = Ledgers

  const UNIT_FACTOR := 10000000.0
  const SECONDS_A_MONTH := 30.0 * 24.0 * 3600.0
  const GIB := 1024 * 1024 * 1024

  datatype PricingPolicy = PricingPolicy(su: nat, cu: nat, ipu: nat, uniqueName: nat, dedicatedDiscount: nat)
  datatype PaymentState = PaymentState(lastUpdated: nat, standardOverdraft: nat, additionalOverdraft: nat)

  /** What the chain answers. Each lookup may fail. */
  datatype Substrate = Substrate(
    policy: Result<PricingPolicy>, billingRate: Result<nat>, balance: string -> Result<nat>,
    contract: nat -> Result<L.Contract>, payment: nat -> Result<PaymentState>, billing: nat -> Result<nat>,
    node: nat -> Result<L.Node>, resources: nat -> Result<L.Resources>, nodeContracts: nat -> Result<seq<nat>>,
    rentContract: nat -> Result<nat>, dedicatedPrice: nat -> Result<nat>)

  // ---- Units ----

  function Max(a: real, b: real): real { if a < b then b else a }
  function Min(a: real, b: real): real { if b < a then b else a }

  function CalculateCu(cru: nat, mru: nat): real {
    var cu1 := Max(mru as real / 4.0, cru as real / 2.0);
    var cu2 := Max(mru as real / 8.0, cru as real);
    var cu3 := Max(mru as real / 2.0, cru as real / 4.0);
    Min(Min(cu1, cu2), cu3)
  }

  function CalculateSu(hru: nat, sru: nat): real {
    hru as real / 1200.0 + sru as real / 200.0
  }

  /** The compute units as one piecewise-linear function of the memory per core. */
  lemma CuIsPiecewise(cru: nat, mru: nat)
    ensures CalculateCu(cru, mru) == if 2 * mru <= cru then cru as real / 4.0
                                     else if mru <= cru then mru as real / 2.0
                                     else if mru <= 2 * cru then cru as real / 2.0
                                     else if mru <= 4 * cru then mru as real / 4.0
                                     else if mru <= 8 * cru then cru as real
                                     else mru as real / 8.0
  {
  }

  /** More cores or more memory never lower the compute units. */
  lemma CuIsMonotone(cru: nat, mru: nat, cru': nat, mru': nat)
    requires cru <= cru' && mru <= mru'
    ensures 0.0 <= CalculateCu(cru, mru) <= CalculateCu(cru', mru')
  {
  }

  // ---- Discounts ----

  const TIERS: seq<(real, real)> := [(0.0, 0.0), (1.5, 20.0), (3.0, 30.0), (6.0, 40.0), (18.0, 60.0)]

  /** The discount of the greatest tier the balance covers, in months of the price. */
  function Discount(balance: real, price: real): real {
    if balance > price * 18.0 then 0.6
    else if balance > price * 6.0 then 0.4
    else if balance > price * 3.0 then 0.3
    else if balance > price * 1.5 then 0.2
    else 0.0
  }

  /** The loop over the tiers, in which the last match wins. */
  method GetApplicableDiscounts(balance: real, dedicatedPrice: real, sharedPrice: real)
    returns (shared: real, dedicated: real)
    ensures shared == Discount(balance, sharedPrice) && dedicated == Discount(balance, dedicatedPrice)
  {
    var bestShared, bestDedicated := 0.0, 0.0;
    for i := 0 to |TIERS|
      invariant bestShared == LastMatch(balance, sharedPrice, i)
      invariant bestDedicated == LastMatch(balance, dedicatedPrice, i)
    {
      var (duration, discount) := TIERS[i];
      if balance > sharedPrice * duration { bestShared := discount; }
      if balance > dedicatedPrice * duration { bestDedicated := discount; }
    }
    LastMatchIsGreatest(balance, sharedPrice);
    LastMatchIsGreatest(balance, dedicatedPrice);
    return bestShared / 100.0, bestDedicated / 100.0;
  }

  function LastMatch(balance: real, price: real, upTo: nat): real
    requires upTo <= |TIERS|
  {
    if upTo == 0 then 0.0
    else if balance > price * TIERS[upTo - 1].0 then TIERS[upTo - 1].1
    else LastMatch(balance, price, upTo - 1)
  }

  lemma LastMatchIsGreatest(balance: real, price: real)
    ensures LastMatch(balance, price, 5) / 100.0 == Discount(balance, price)
  {
    assert LastMatch(balance, price, 1) == 0.0;
    assert LastMatch(balance, price, 2) == if balance > price * 1.5 then 20.0 else LastMatch(balance, price, 1);
    assert LastMatch(balance, price, 3) == if balance > price * 3.0 then 30.0 else LastMatch(balance, price, 2);
    assert LastMatch(balance, price, 4) == if balance > price * 6.0 then 40.0 else LastMatch(balance, price, 3);
  }

  /** At non-negative prices a covered tier covers every smaller one, and the discount never rises with
      the price nor falls with the balance. */
  lemma DiscountIsMonotone(balance: real, price: real, balance': real, price': real)
    requires balance <= balance' && 0.0 <= price' <= price
    ensures Discount(balance, price) <= Discount(balance', price')
    ensures forall i, j :: 0 <= i <= j < 5 && balance > price * TIERS[j].0 ==> balance > price * TIERS[i].0
  {
    forall i, j | 0 <= i <= j < 5 && balance > price * TIERS[j].0
      ensures balance > price * TIERS[i].0
    {
      assert TIERS[i].0 <= TIERS[j].0;
      MulMonotone(TIERS[i].0, TIERS[j].0, price);
    }
  }

  /** The discount by the months of the price that the balance covers. */
  lemma DiscountByMonths(months: real, price: real)
    requires price > 0.0
    ensures Discount(months * price, price) == if months > 18.0 then 60.0 / 100.0
                                               else if months > 6.0 then 40.0 / 100.0
                                               else if months > 3.0 then 30.0 / 100.0
                                               else if months > 1.5 then 20.0 / 100.0
                                               else 0.0
  {
    MoreMonths(months, 18.0, price);
    MoreMonths(months, 6.0, price);
    MoreMonths(months, 3.0, price);
    MoreMonths(months, 1.5, price);
  }

  lemma MoreMonths(months: real, n: real, price: real)
    requires price > 0.0
    ensures months * price > price * n <==> months > n
  {
    if months > n {
      assert (months - n) * price > 0.0;
    } else {
      MulMonotone(months, n, price);
    }
  }

  lemma MulMonotone(a: real, b: real, c: real)
    requires a <= b && 0.0 <= c
    ensures a * c <= b * c
  {
    assert (b - a) * c >= 0.0;
  }

  function Dedicated(cost: real, discount: nat): real {
    cost * (1.0 - discount as real / 100.0)
  }

  function PerSecond(monthly: real): real {
    monthly / SECONDS_A_MONTH
  }

  function OverPeriod(perSecond: real, seconds: real): real {
    perSecond * seconds
  }

  // ---- The calculation ----

  /** The smallest integer not below x, as `f64::ceil` gives it. */
  function Ceil(x: real): (c: int)
    ensures x <= c as real < x + 1.0
  {
    -((-x).Floor)
  }

  /** A calculator at a moment of the clock, in seconds since the epoch. */
  datatype Calculation = Calculation(sub: Substrate, identity: Option<string>, now: real) {
    function CostUnits(p: PricingPolicy, cru: nat, mru: nat, hru: nat, sru: nat, publicIp: bool): real {
      CalculateCu(cru, mru) * p.cu as real + CalculateSu(hru, sru) * p.su as real
      + if publicIp then p.ipu as real else 0.0
    }

    function Cost(cru: nat, mru: nat, hru: nat, sru: nat, publicIp: bool, certified: bool): Result<real> {
      var p :- sub.policy;
      var units := CostUnits(p, cru, mru, hru, sru, publicIp) * if certified then 1.25 else 1.0;
      Ok(units * 24.0 * 30.0 / UNIT_FACTOR)
    }

    function TftToUsd(tft: real): Result<real> {
      var rate :- sub.billingRate;
      Ok(tft * (rate as real / 1000.0))
    }

    function UsdToTft(usd: real): Result<real> {
      var rate :- sub.billingRate;
      if rate == 0 then Err(Validation("zero TFT rate")) else Ok(usd / (rate as real / 1000.0))
    }

    /** The balance in dollars, when somebody pays. */
    function BalanceUsd(): Result<Option<real>> {
      match identity
      case None => Ok(None)
      case Some(who) =>
        var free :- sub.balance(who);
        var usd :- TftToUsd(free as real / UNIT_FACTOR);
        Ok(Some(usd))
    }

    /** `calculate_prices_after_discount`: the dedicated and the shared price. */
    function PricesAfterDiscount(cost: real): Result<(real, real)> {
      var p :- sub.policy;
      var dedicated := Dedicated(cost, p.dedicatedDiscount);
      var paid :- BalanceUsd();
      match paid
      case None => Ok((dedicated, cost))
      case Some(usd) => Ok((dedicated * (1.0 - Discount(usd, dedicated)), cost * (1.0 - Discount(usd, cost))))
    }

    function UniqueNameCost(): Result<real> {
      var p :- sub.policy;
      var prices :- PricesAfterDiscount(p.uniqueName as real * 24.0 * 30.0 / UNIT_FACTOR);
      Ok(prices.1)
    }

    function Ipv4CostPerMonth(): Result<real> {
      var p :- sub.policy;
      Ok(p.ipu as real * 24.0 * 30.0 / UNIT_FACTOR)
    }

    /** On a rented node only the addresses are charged. */
    function RentedIpsCost(ips: nat, certified: bool): Result<real> {
      var ipv4 :- Ipv4CostPerMonth();
      Ok(ipv4 * ips as real * if certified then 1.25 else 1.0)
    }

    function NodeContractCost(c: L.Contract, node: L.Node): Result<real> {
      var used :- sub.resources(c.contractId);
      var rented := sub.rentContract(node.id);
      var ips := c.contractType.nodeContract.publicIpsCount;
      if rented.Ok? && rented.value > 0 && ips > 0 then
        var cost :- RentedIpsCost(ips, node.isCertified);
        var prices :- PricesAfterDiscount(cost);
        Ok(prices.1)
      else
        var raw :- Cost(used.cru, used.mru / GIB, used.hru / GIB, used.sru / GIB, ips > 0, node.isCertified);
        var prices :- PricesAfterDiscount(raw);
        Ok(prices.1)
    }

    function RentContractCost(node: L.Node): Result<real> {
      var r := node.resources;
      var cost :- Cost(r.cru, r.mru / GIB, r.hru / GIB, r.sru / GIB, false, node.isCertified);
      var prices :- PricesAfterDiscount(cost);
      var fee :- sub.dedicatedPrice(node.id);
      Ok(prices.0 + fee as real / 1000.0)
    }

    function ContractCost(c: L.Contract, node: L.Node): Result<real> {
      match c.contractType.Kind()
      case NameKind => UniqueNameCost()
      case NodeKind => NodeContractCost(c, node)
      case RentKind => RentContractCost(node)
    }

    function UnbilledTft(c: L.Contract, certified: bool): Result<real> {
      var kind := c.contractType.Kind();
      if kind == L.NameKind || (kind == L.NodeKind && c.contractType.nodeContract.publicIpsCount == 0) then Ok(0.0)
      else
        var info := sub.billing(c.contractId);
        if info.Err? then Ok(0.0) else UsdToTft(info.value as real / UNIT_FACTOR * if certified then 1.25 else 1.0)
    }

    function PeriodCostTft(lastUpdated: nat, c: L.Contract, node: Option<L.Node>, allowance: real): Result<real> {
      match node
      case None => Ok(0.0)
      case Some(n) =>
        if now < lastUpdated as real then Err(Backend("second time provided was later than self"))
        else
          var usd :- ContractCost(c, n);
          var tft :- UsdToTft(usd);
          Ok(OverPeriod(PerSecond(tft), now - lastUpdated as real + allowance))
    }

    /** What a contract owes by itself: its overdraft, its unbilled use, and the period since. */
    function Own(id: nat, allowance: real): Result<real> {
      var c :- sub.contract(id);
      if c.isDeleted then Err(ContractDeleted)
      else
        var payment :- sub.payment(id);
        var node :- (match c.contractType.NodeId()
                     case None => Ok(None)
                     case Some(n) => var found :- sub.node(n); Ok(Some(found)));
        var unbilled :- UnbilledTft(c, node.Some? && node.value.isCertified);
        var period :- PeriodCostTft(payment.lastUpdated, c, node, allowance);
        Ok((payment.standardOverdraft + payment.additionalOverdraft) as real / UNIT_FACTOR + unbilled + period)
    }

    predicate IsRent(id: nat) {
      sub.contract(id).Ok? && sub.contract(id).value.contractType.Kind() == L.RentKind
    }

    /** No node lists a rent contract: the condition under which overdue amounts are defined. */
    ghost predicate NoRentListed() {
      forall n: nat, id: nat :: sub.nodeContracts(n).Ok? && id in sub.nodeContracts(n).value ==> !IsRent(id)
    }

    function RoundedUp(id: nat, allowance: real): Result<int> {
      var own :- Own(id, allowance);
      Ok(Ceil(own))
    }

    /** The sum of the rounded-up amounts, or the first failure. */
    function SumRounded(ids: seq<nat>, allowance: real): Result<int> {
      if ids == [] then Ok(0)
      else
        var before :- SumRounded(ids[..|ids| - 1], allowance);
        var last :- RoundedUp(ids[|ids| - 1], allowance);
        Ok(before + last)
    }

    /** What `calculate_contract_overdue` answers when no node lists a rent contract. */
    function Overdue(id: nat, allowance: real): Result<int> {
      var own :- Own(id, allowance);
      if IsRent(id) then
        var listed :- sub.nodeContracts(sub.contract(id).value.contractType.rentNode);
        var extra :- SumRounded(listed, allowance);
        Ok(Ceil(own + extra as real))
      else Ok(Ceil(own))
    }

    /** The same recursion as the code, cut off after a number of calls; None is not finished yet. */
    function OverdueWithin(fuel: nat, id: nat, allowance: real): Option<Result<int>>
      decreases fuel, 0
    {
      if fuel == 0 then None
      else
        var own := Own(id, allowance);
        if own.Err? then Some(Err(own.error))
        else if !IsRent(id) then Some(Ok(Ceil(own.value)))
        else
          var listed := sub.nodeContracts(sub.contract(id).value.contractType.rentNode);
          if listed.Err? then Some(Err(listed.error))
          else
            match SumWithin(fuel - 1, listed.value, allowance)
            case None => None
            case Some(Err(e)) => Some(Err(e))
            case Some(Ok(extra)) => Some(Ok(Ceil(own.value + extra as real)))
    }

    function SumWithin(fuel: nat, ids: seq<nat>, allowance: real): Option<Result<int>>
      decreases fuel, 1 + |ids|
    {
      if ids == [] then Some(Ok(0))
      else
        match SumWithin(fuel, ids[..|ids| - 1], allowance)
        case None => None
        case Some(Err(e)) => Some(Err(e))
        case Some(Ok(before)) =>
          match OverdueWithin(fuel, ids[|ids| - 1], allowance)
          case None => None
          case Some(Err(e)) => Some(Err(e))
          case Some(Ok(last)) => Some(Ok(before + last))
    }
  }

  // ---- Prices ----

  /** Shared prices keep the order of costs, and a price never exceeds its cost. */
  lemma SharedPriceStrictlyIncreases(c: Calculation, cost: real, cost': real)
    requires 0.0 <= cost < cost' && c.PricesAfterDiscount(cost).Ok?
    ensures c.PricesAfterDiscount(cost').Ok?
    ensures c.PricesAfterDiscount(cost).value.1 < c.PricesAfterDiscount(cost').value.1 <= cost'
  {
    match c.BalanceUsd().value
    case None =>
    case Some(usd) => DiscountedIncreases(usd, cost, cost');
  }

  lemma DiscountedIncreases(usd: real, price: real, price': real)
    requires 0.0 <= price <= price'
    ensures 0.0 <= price * (1.0 - Discount(usd, price)) <= price' * (1.0 - Discount(usd, price')) <= price'
    ensures price < price' ==> price * (1.0 - Discount(usd, price)) < price' * (1.0 - Discount(usd, price'))
  {
    DiscountIsMonotone(usd, price', usd, price);
  }

  lemma DedicatedShare(cost: real, discount: nat)
    requires 0.0 <= cost && discount <= 100
    ensures 0.0 <= Dedicated(cost, discount) <= cost
  {
    var share := 1.0 - discount as real / 100.0;
    assert 0.0 <= share <= 1.0;
    assert Dedicated(cost, discount) == cost * share;
    hide Dedicated;
    MulMonotone(share, 1.0, cost);
    MulMonotone(0.0, share, cost);
  }

  /** With a policy discount of at most 100 percent, the dedicated price never exceeds the shared one. */
  lemma DedicatedNeverExceedsShared(c: Calculation, cost: real)
    requires 0.0 <= cost && c.PricesAfterDiscount(cost).Ok?
    requires c.sub.policy.Ok? ==> c.sub.policy.value.dedicatedDiscount <= 100
    ensures var (dedicated, shared) := c.PricesAfterDiscount(cost).value;
            0.0 <= dedicated <= shared <= cost
  {
    hide Dedicated, Calculation.BalanceUsd;
    var discount := c.sub.policy.value.dedicatedDiscount;
    DedicatedShare(cost, discount);
    match c.BalanceUsd().value
    case None =>
    case Some(usd) => DiscountedIncreases(usd, Dedicated(cost, discount), cost);
  }

  /** Beyond 100 percent, and only then, the dedicated price of anything that costs is negative. */
  lemma DedicatedIsNegativeIff(c: Calculation, cost: real)
    requires 0.0 < cost && c.PricesAfterDiscount(cost).Ok?
    ensures c.PricesAfterDiscount(cost).value.0 < 0.0 <==> c.sub.policy.value.dedicatedDiscount > 100
  {
    hide Calculation.BalanceUsd;
    var discount := c.sub.policy.value.dedicatedDiscount;
    if discount <= 100 {
      DedicatedNeverExceedsShared(c, cost);
    } else {
      var over := discount as real / 100.0 - 1.0;
      assert over > 0.0 && cost * over > 0.0;
      assert Dedicated(cost, discount) == -(cost * over);
    }
  }

  // ---- Overdue amounts ----

  class Calculator {
    const books: Calculation

    constructor (books: Calculation)
      ensures this.books == books
    {
      this.books := books;
    }

    /** A rent contract adds the amounts on its node, each computed by the same method. */
    method CalculateContractOverdue(id: nat, allowance: real) returns (r: Result<int>)
      requires books.NoRentListed()
      ensures r == books.Overdue(id, allowance)
      decreases if books.IsRent(id) then 1 else 0, 0
    {
      hide Calculation.Own;
      var own := books.Own(id, allowance);
      if own.Err? { return Err(own.error); }
      var total := own.value;
      if books.IsRent(id) {
        var extra := CalculateTotalContractsOverdueOnNode(books.sub.contract(id).value.contractType.rentNode,
                                                          allowance);
        if extra.Err? { return extra; }
        total := total + extra.value as real;
      }
      return Ok(Ceil(total));
    }

    method CalculateTotalContractsOverdueOnNode(node: nat, allowance: real) returns (r: Result<int>)
      requires books.NoRentListed()
      ensures books.sub.nodeContracts(node).Err? ==> r.Err? && r.error == books.sub.nodeContracts(node).error
      ensures books.sub.nodeContracts(node).Ok?
              ==> r == books.SumRounded(books.sub.nodeContracts(node).value, allowance)
      decreases 0, 1
    {
      hide Calculation.Own;
      var listed := books.sub.nodeContracts(node);
      if listed.Err? { return Err(listed.error); }
      var ids := listed.value;
      var total := 0;
      for i := 0 to |ids|
        invariant books.SumRounded(ids[..i], allowance) == Ok(total)
      {
        assert ids[i] in ids && !books.IsRent(ids[i]);
        assert ids[..i + 1][..i] == ids[..i];
        var one := CalculateContractOverdue(ids[i], allowance);
        if one.Err? {
          SumStopsAtFailure(books, ids, i + 1, allowance);
          return one;
        }
        total := total + one.value;
      }
      assert ids[..|ids|] == ids;
      return Ok(total);
    }
  }

  lemma {:induction false} SumStopsAtFailure(c: Calculation, ids: seq<nat>, n: nat, allowance: real)
    requires n <= |ids| && c.SumRounded(ids[..n], allowance).Err?
    ensures c.SumRounded(ids, allowance) == c.SumRounded(ids[..n], allowance)
    decreases |ids| - n
  {
    if n == |ids| {
      assert ids[..n] == ids;
    } else {
      assert ids[..n + 1][..n] == ids[..n];
      SumStopsAtFailure(c, ids, n + 1, allowance);
    }
  }

  /** The sum exists exactly when every listed contract has an amount; a deleted one has none. */
  lemma {:induction false} SumNeedsEvery(c: Calculation, ids: seq<nat>, allowance: real)
    ensures c.SumRounded(ids, allowance).Ok? <==> forall id :: id in ids ==> c.Own(id, allowance).Ok?
    decreases |ids|
  {
    if ids != [] {
      SumNeedsEvery(c, ids[..|ids| - 1], allowance);
      assert forall id :: id in ids <==> id in ids[..|ids| - 1] || id == ids[|ids| - 1];
    }
  }

  /** A deleted contract anywhere in the list of a rented node makes the rent contract's amount an error. */
  lemma DeletedListedFails(c: Calculation, rent: nat, deleted: nat, allowance: real)
    requires c.IsRent(rent)
    requires var listed := c.sub.nodeContracts(c.sub.contract(rent).value.contractType.rentNode);
             listed.Ok? && deleted in listed.value
    requires c.sub.contract(deleted).Ok? && c.sub.contract(deleted).value.isDeleted
    ensures c.Overdue(rent, allowance).Err?
  {
    var listed := c.sub.nodeContracts(c.sub.contract(rent).value.contractType.rentNode);
    SumNeedsEvery(c, listed.value, allowance);
    assert c.Own(deleted, allowance).Err?;
  }

  // ---- Amounts never fall with the allowance ----

  lemma ProductIsNonNegative(a: real, b: real)
    requires 0.0 <= a && 0.0 <= b
    ensures 0.0 <= a * b
  {
  }

  lemma CostIsNonNegative(c: Calculation, cru: nat, mru: nat, hru: nat, sru: nat, publicIp: bool, certified: bool)
    requires c.Cost(cru, mru, hru, sru, publicIp, certified).Ok?
    ensures c.Cost(cru, mru, hru, sru, publicIp, certified).value >= 0.0
  {
    hide CalculateCu, CalculateSu;
    var p, cu, su := c.sub.policy.value, CalculateCu(cru, mru), CalculateSu(hru, sru);
    CuIsMonotone(cru, mru, cru, mru);
    SuIsNonNegative(hru, sru);
    ProductIsNonNegative(cu, p.cu as real);
    ProductIsNonNegative(su, p.su as real);
    var units := c.CostUnits(p, cru, mru, hru, sru, publicIp);
    assert units >= 0.0;
    hide Calculation.CostUnits;
    assert c.Cost(cru, mru, hru, sru, publicIp, certified).value
        == units * (if certified then 1.25 else 1.0) * 24.0 * 30.0 / UNIT_FACTOR;
  }

  lemma SuIsNonNegative(hru: nat, sru: nat)
    ensures CalculateSu(hru, sru) >= 0.0
  {
  }

  lemma Ipv4IsNonNegative(c: Calculation, ips: nat, certified: bool)
    requires c.RentedIpsCost(ips, certified).Ok?
    ensures c.RentedIpsCost(ips, certified).value >= 0.0
  {
    MulMonotone(0.0, c.Ipv4CostPerMonth().value, ips as real);
  }

  lemma ContractCostIsNonNegative(c: Calculation, contract: L.Contract, node: L.Node)
    requires (c.sub.policy.Ok? ==> c.sub.policy.value.dedicatedDiscount <= 100) && c.ContractCost(contract, node).Ok?
    ensures c.ContractCost(contract, node).value >= 0.0
  {
    hide Calculation.Cost, Calculation.PricesAfterDiscount, Calculation.RentedIpsCost;
    match contract.contractType.Kind()
    case NameKind =>
      DedicatedNeverExceedsShared(c, c.sub.policy.value.uniqueName as real * 24.0 * 30.0 / UNIT_FACTOR);
    case NodeKind =>
      var used := c.sub.resources(contract.contractId).value;
      var ips, rented := contract.contractType.nodeContract.publicIpsCount, c.sub.rentContract(node.id);
      if rented.Ok? && rented.value > 0 && ips > 0 {
        Ipv4IsNonNegative(c, ips, node.isCertified);
        DedicatedNeverExceedsShared(c, c.RentedIpsCost(ips, node.isCertified).value);
      } else {
        CostIsNonNegative(c, used.cru, used.mru / GIB, used.hru / GIB, used.sru / GIB, ips > 0, node.isCertified);
        DedicatedNeverExceedsShared(
          c, c.Cost(used.cru, used.mru / GIB, used.hru / GIB, used.sru / GIB, ips > 0, node.isCertified).value);
      }
    case RentKind =>
      var r := node.resources;
      CostIsNonNegative(c, r.cru, r.mru / GIB, r.hru / GIB, r.sru / GIB, false, node.isCertified);
      DedicatedNeverExceedsShared(
        c, c.Cost(r.cru, r.mru / GIB, r.hru / GIB, r.sru / GIB, false, node.isCertified).value);
  }

  lemma RateIsNonNegative(usd: real, rate: nat)
    requires usd >= 0.0 && rate != 0
    ensures PerSecond(usd / (rate as real / 1000.0)) >= 0.0
  {
    var tft := usd / (rate as real / 1000.0);
    assert tft * (rate as real / 1000.0) == usd;
    if tft < 0.0 { MulNegative(tft, rate as real / 1000.0); }
  }

  lemma MulNegative(a: real, b: real)
    requires a < 0.0 && b > 0.0
    ensures a * b < 0.0
  {
  }

  lemma PeriodGrows(c: Calculation, last: nat, contract: L.Contract, node: Option<L.Node>, a: real, b: real)
    requires (c.sub.policy.Ok? ==> c.sub.policy.value.dedicatedDiscount <= 100) && a <= b
    ensures c.PeriodCostTft(last, contract, node, a).Ok? <==> c.PeriodCostTft(last, contract, node, b).Ok?
    ensures c.PeriodCostTft(last, contract, node, a).Ok? ==>
              c.PeriodCostTft(last, contract, node, a).value <= c.PeriodCostTft(last, contract, node, b).value
  {
    hide Calculation.ContractCost, OverPeriod, PerSecond;
    if node.Some? && c.PeriodCostTft(last, contract, node, a).Ok? {
      ContractCostIsNonNegative(c, contract, node.value);
      var usd, rate := c.ContractCost(contract, node.value).value, c.sub.billingRate.value;
      RateIsNonNegative(usd, rate);
      OverPeriodGrows(PerSecond(c.UsdToTft(usd).value), c.now - last as real + a, c.now - last as real + b);
    }
  }

  lemma OverPeriodGrows(perSecond: real, a: real, b: real)
    requires perSecond >= 0.0 && a <= b
    ensures OverPeriod(perSecond, a) <= OverPeriod(perSecond, b)
  {
    MulMonotone(a, b, perSecond);
  }

  lemma OwnGrows(c: Calculation, id: nat, a: real, b: real)
    requires (c.sub.policy.Ok? ==> c.sub.policy.value.dedicatedDiscount <= 100) && a <= b
    ensures c.Own(id, a).Ok? <==> c.Own(id, b).Ok?
    ensures c.Own(id, a).Ok? ==> c.Own(id, a).value <= c.Own(id, b).value
  {
    hide Calculation.PeriodCostTft, Calculation.UnbilledTft;
    if c.sub.contract(id).Ok? && !c.sub.contract(id).value.isDeleted && c.sub.payment(id).Ok? {
      var contract, last := c.sub.contract(id).value, c.sub.payment(id).value.lastUpdated;
      match contract.contractType.NodeId()
      case None => PeriodGrows(c, last, contract, None, a, b);
      case Some(n) => if c.sub.node(n).Ok? { PeriodGrows(c, last, contract, Some(c.sub.node(n).value), a, b); }
    }
  }

  lemma CeilGrows(x: real, y: real)
    requires x <= y
    ensures Ceil(x) <= Ceil(y)
  {
  }

  lemma {:induction false} SumGrows(c: Calculation, ids: seq<nat>, a: real, b: real)
    requires (c.sub.policy.Ok? ==> c.sub.policy.value.dedicatedDiscount <= 100) && a <= b
    ensures c.SumRounded(ids, a).Ok? <==> c.SumRounded(ids, b).Ok?
    ensures c.SumRounded(ids, a).Ok? ==> c.SumRounded(ids, a).value <= c.SumRounded(ids, b).value
    decreases |ids|
  {
    hide Calculation.Own;
    if ids != [] {
      var last := ids[|ids| - 1];
      SumGrows(c, ids[..|ids| - 1], a, b);
      OwnGrows(c, last, a, b);
      if c.Own(last, a).Ok? { CeilGrows(c.Own(last, a).value, c.Own(last, b).value); }
    }
  }

  /** At a fixed clock a larger allowance never turns an amount into an error, nor lowers it. */
  lemma AllowanceNeverLowers(c: Calculation, id: nat, a: real, b: real)
    requires (c.sub.policy.Ok? ==> c.sub.policy.value.dedicatedDiscount <= 100) && a <= b
    ensures c.Overdue(id, a).Ok? <==> c.Overdue(id, b).Ok?
    ensures c.Overdue(id, a).Ok? ==> c.Overdue(id, a).value <= c.Overdue(id, b).value
  {
    hide Calculation.Own, Calculation.SumRounded;
    OwnGrows(c, id, a, b);
    if c.Own(id, a).Ok? {
      var x, y := c.Own(id, a).value, c.Own(id, b).value;
      if c.IsRent(id) {
        var listed := c.sub.nodeContracts(c.sub.contract(id).value.contractType.rentNode);
        if listed.Ok? {
          SumGrows(c, listed.value, a, b);
          if c.SumRounded(listed.value, a).Ok? {
            CeilGrows(x + c.SumRounded(listed.value, a).value as real, y + c.SumRounded(listed.value, b).value as real);
          }
        }
      } else {
        CeilGrows(x, y);
      }
    }
  }

  // ---- Termination ----

  lemma {:induction false} LeavesNeedOneCall(c: Calculation, fuel: nat, ids: seq<nat>, allowance: real)
    requires fuel >= 1 && forall id :: id in ids ==> !c.IsRent(id)
    ensures c.SumWithin(fuel, ids, allowance) == Some(c.SumRounded(ids, allowance))
    decreases |ids|
  {
    hide Calculation.Own;
    if ids != [] {
      LeavesNeedOneCall(c, fuel, ids[..|ids| - 1], allowance);
      assert !c.IsRent(ids[|ids| - 1]);
    }
  }

  /** When no node lists a rent contract, the recursion is at most two calls deep. */
  lemma TwoCallsSuffice(c: Calculation, fuel: nat, id: nat, allowance: real)
    requires c.NoRentListed() && fuel >= 2
    ensures c.OverdueWithin(fuel, id, allowance) == Some(c.Overdue(id, allowance))
  {
    hide Calculation.Own;
    if c.IsRent(id) {
      var listed := c.sub.nodeContracts(c.sub.contract(id).value.contractType.rentNode);
      if listed.Ok? { LeavesNeedOneCall(c, fuel - 1, listed.value, allowance); }
    }
  }

  /** The recursion reaches an amount at some depth. */
  ghost predicate Answers(c: Calculation, id: nat, allowance: real) {
    exists fuel: nat :: AnswersWithin(c, fuel, id, allowance)
  }

  predicate AnswersWithin(c: Calculation, fuel: nat, id: nat, allowance: real) {
    var r := c.OverdueWithin(fuel, id, allowance);
    r.Some? && r.value.Ok?
  }

  /** What a rent contract's amount asks for. */
  function ListedWith(c: Calculation, id: nat): Result<seq<nat>>
    requires c.IsRent(id)
  {
    c.sub.nodeContracts(c.sub.contract(id).value.contractType.rentNode)
  }

  /** A trap: every contract in it has no amount of its own, or is a rent contract whose node has no list, or
      lists a contract of the trap. */
  ghost predicate Trap(c: Calculation, allowance: real, ids: iset<nat>) {
    forall id :: id in ids ==>
      || c.Own(id, allowance).Err?
      || (c.IsRent(id) && (ListedWith(c, id).Err? || exists x :: x in ListedWith(c, id).value && x in ids))
  }

  lemma {:induction false} SumAsksEvery(c: Calculation, fuel: nat, ids: seq<nat>, allowance: real)
    ensures (c.SumWithin(fuel, ids, allowance).Some? && c.SumWithin(fuel, ids, allowance).value.Ok?)
       <==> forall id :: id in ids ==> AnswersWithin(c, fuel, id, allowance)
    decreases |ids|
  {
    hide Calculation.Own, Calculation.OverdueWithin;
    if ids != [] {
      var before, last := ids[..|ids| - 1], ids[|ids| - 1];
      SumAsksEvery(c, fuel, before, allowance);
      assert forall id :: id in ids <==> id in before || id == last;
      var sum, one := c.SumWithin(fuel, before, allowance), c.OverdueWithin(fuel, last, allowance);
      assert (c.SumWithin(fuel, ids, allowance).Some? && c.SumWithin(fuel, ids, allowance).value.Ok?)
        <==> sum.Some? && sum.value.Ok? && one.Some? && one.value.Ok?;
      assert AnswersWithin(c, fuel, last, allowance) <==> one.Some? && one.value.Ok?;
      hide AnswersWithin, Calculation.SumWithin;
    } else {
      assert c.SumWithin(fuel, ids, allowance) == Some(Ok(0));
    }
  }

  /** One step of the recursion. */
  lemma AnswersStep(c: Calculation, fuel: nat, id: nat, allowance: real)
    ensures AnswersWithin(c, fuel + 1, id, allowance)
       <==> && c.Own(id, allowance).Ok?
            && (c.IsRent(id) ==> && ListedWith(c, id).Ok?
                                 && forall x :: x in ListedWith(c, id).value ==> AnswersWithin(c, fuel, x, allowance))
  {
    hide Calculation.Own;
    if c.IsRent(id) && ListedWith(c, id).Ok? { SumAsksEvery(c, fuel, ListedWith(c, id).value, allowance); }
  }

  lemma {:induction false} MoreFuelAnswers(c: Calculation, fuel: nat, more: nat, id: nat, allowance: real)
    requires AnswersWithin(c, fuel, id, allowance) && fuel <= more
    ensures AnswersWithin(c, more, id, allowance)
    decreases fuel
  {
    hide Calculation.Own;
    assert fuel > 0;
    AnswersStep(c, fuel - 1, id, allowance);
    AnswersStep(c, more - 1, id, allowance);
    hide AnswersWithin;
    if c.IsRent(id) {
      forall x | x in ListedWith(c, id).value ensures AnswersWithin(c, more - 1, x, allowance) {
        MoreFuelAnswers(c, fuel - 1, more - 1, x, allowance);
      }
    }
  }

  lemma {:induction false} EnoughForAll(c: Calculation, ids: seq<nat>, allowance: real) returns (fuel: nat)
    requires forall x :: x in ids ==> Answers(c, x, allowance)
    ensures forall x :: x in ids ==> AnswersWithin(c, fuel, x, allowance)
  {
    hide AnswersWithin;
    if ids == [] {
      fuel := 0;
    } else {
      var rest := EnoughForAll(c, ids[1..], allowance);
      assert ids[0] in ids;
      var first: nat :| AnswersWithin(c, first, ids[0], allowance);
      fuel := if first < rest then rest else first;
      forall x | x in ids ensures AnswersWithin(c, fuel, x, allowance) {
        if x == ids[0] {
          MoreFuelAnswers(c, first, fuel, x, allowance);
        } else {
          assert x in ids[1..];
          MoreFuelAnswers(c, rest, fuel, x, allowance);
        }
      }
    }
  }

  lemma {:induction false} TrappedNeverAnswers(c: Calculation, ids: iset<nat>, fuel: nat, id: nat, allowance: real)
    requires Trap(c, allowance, ids) && id in ids
    ensures !AnswersWithin(c, fuel, id, allowance)
  {
    hide Calculation.Own;
    if fuel > 0 {
      AnswersStep(c, fuel - 1, id, allowance);
      if c.Own(id, allowance).Ok? && ListedWith(c, id).Ok? {
        var x :| x in ListedWith(c, id).value && x in ids;
        TrappedNeverAnswers(c, ids, fuel - 1, x, allowance);
      }
    }
  }

  /** Exactly when the recursion reaches an amount, whatever the chain lists where: a contract gets none if
      and only if it sits in a trap. Rent contracts listed on their own node, on each other's, or in any
      longer circle form one. */
  lemma AnswersUnlessTrapped(c: Calculation, id: nat, allowance: real)
    ensures Answers(c, id, allowance) <==> !exists ids: iset<nat> :: id in ids && Trap(c, allowance, ids)
  {
    hide AnswersWithin;
    if ids: iset<nat> :| id in ids && Trap(c, allowance, ids) {
      forall fuel: nat ensures !AnswersWithin(c, fuel, id, allowance) {
        TrappedNeverAnswers(c, ids, fuel, id, allowance);
      }
    }
    if !Answers(c, id, allowance) {
      var ids := iset x: nat | !Answers(c, x, allowance);
      forall x | x in ids
        ensures || c.Own(x, allowance).Err?
                || (c.IsRent(x) && (ListedWith(c, x).Err? || exists y :: y in ListedWith(c, x).value && y in ids))
      {
        UnansweredIsTrapped(c, x, allowance);
      }
      assert Trap(c, allowance, ids);
    }
  }

  lemma ListedAnswersSuffice(c: Calculation, id: nat, allowance: real)
    requires c.Own(id, allowance).Ok?
    requires c.IsRent(id) ==> && ListedWith(c, id).Ok?
                              && forall x :: x in ListedWith(c, id).value ==> Answers(c, x, allowance)
    ensures Answers(c, id, allowance)
  {
    hide AnswersWithin, Calculation.Own;
    var fuel: nat := 0;
    if c.IsRent(id) { fuel := EnoughForAll(c, ListedWith(c, id).value, allowance); }
    AnswersStep(c, fuel, id, allowance);
    assert AnswersWithin(c, fuel + 1, id, allowance);
  }

  lemma UnansweredIsTrapped(c: Calculation, id: nat, allowance: real)
    requires !Answers(c, id, allowance)
    ensures || c.Own(id, allowance).Err?
            || (c.IsRent(id) && (ListedWith(c, id).Err?
                                 || exists x :: x in ListedWith(c, id).value && !Answers(c, x, allowance)))
  {
    hide Answers, Calculation.Own;
    if && c.Own(id, allowance).Ok?
       && (c.IsRent(id) ==> && ListedWith(c, id).Ok?
                            && forall x :: x in ListedWith(c, id).value ==> Answers(c, x, allowance))
    {
      ListedAnswersSuffice(c, id, allowance);
    }
  }

  /** A rent contract that its own node lists never gets an amount, however deep the recursion. */
  lemma SelfListedNeverAnswers(c: Calculation, id: nat, allowance: real)
    requires c.IsRent(id) && ListedWith(c, id).Ok? && id in ListedWith(c, id).value
    ensures !Answers(c, id, allowance)
  {
    hide AnswersWithin;
    assert Trap(c, allowance, iset{id});
    AnswersUnlessTrapped(c, id, allowance);
  }

  /** The lookups of a calculation that the in-memory chain answers. */
  ghost predicate BackedBy(c: Calculation, l: L.Ledger) {
    && (forall id: nat :: c.sub.contract(id).Ok? <==> id in l.contracts)
    && (forall id: nat :: id in l.contracts ==> c.sub.contract(id) == Ok(l.contracts[id]))
    && (forall n: nat :: c.sub.nodeContracts(n) == Ok(l.Listed(n)))
  }

  /** On an indexed chain every rent contract is on its own node's list, so exactly the others that have an
      amount of their own get one. */
  lemma IndexedChainAnswersIff(c: Calculation, l: L.Ledger, id: nat, allowance: real)
    requires l.Indexed() && BackedBy(c, l)
    requires c.IsRent(id) ==> !l.contracts[id].contractType.isNode
    ensures Answers(c, id, allowance) <==> c.Own(id, allowance).Ok? && !c.IsRent(id)
  {
    hide AnswersWithin, Calculation.Own;
    AnswersStep(c, 0, id, allowance);
    if c.IsRent(id) {
      var node := l.contracts[id].contractType.rentNode;
      assert id in l.Listed(node);
      SelfListedNeverAnswers(c, id, allowance);
    } else if Answers(c, id, allowance) {
      var fuel: nat :| AnswersWithin(c, fuel, id, allowance);
      OwnIsAsked(c, fuel, id, allowance);
    } else {
      assert !AnswersWithin(c, 1, id, allowance);
    }
  }

  lemma OwnIsAsked(c: Calculation, fuel: nat, id: nat, allowance: real)
    requires AnswersWithin(c, fuel, id, allowance)
    ensures c.Own(id, allowance).Ok?
  {
    hide Calculation.Own;
  }

  /** The lists of the chain hold no rent contract if and only if the chain holds none. */
  lemma NoRentListedIff(c: Calculation, l: L.Ledger)
    requires l.Indexed() && BackedBy(c, l)
    requires forall id :: id in l.contracts && c.IsRent(id) ==> !l.contracts[id].contractType.isNode
    ensures c.NoRentListed() <==> forall id: nat :: !c.IsRent(id)
  {
    if c.NoRentListed() {
      forall id: nat ensures !c.IsRent(id) {
        assert c.IsRent(id) ==> id in l.Listed(l.contracts[id].contractType.rentNode);
      }
    }
  }

  /** Inserting a rent contract by hand lists it on its own node, so its overdue amount is never found. */
  lemma AddedRentContractNeverAnswers(c: Calculation, l: L.Ledger, rent: L.Contract, allowance: real)
    requires rent.contractType.Kind() == L.RentKind && !rent.contractType.isNode
    requires BackedBy(c, l.AddContract(rent))
    ensures !Answers(c, rent.contractId, allowance)
  {
    hide Answers;
    L.AddContractListed(l, rent, rent.contractType.rentNode);
    SelfListedNeverAnswers(c, rent.contractId, allowance);
  }
}
