/** What a contract owes, in closed form: the amounts of src/calculator.rs from the chain's own numbers. */
module Bills {
  import opened GridErrors
  import opened Calculators
  import L = Ledgers

  // ---- The reference ----

  function Surcharge(certified: bool): real {
    if certified then 1.25 else 1.0
  }

  /** Units of storage, from GiB of disk and of SSD. */
  function Storage(disk: nat, ssd: nat): real {
    disk as real / 1200.0 + ssd as real / 200.0
  }

  /** An hour's price in ten-millionths of a dollar: compute units, storage, and the address. */
  function Hour(p: PricingPolicy, cru: nat, mru: nat, hru: nat, sru: nat, address: bool): real {
    CalculateCu(cru, mru) * p.cu as real + Storage(hru, sru) * p.su as real + if address then p.ipu as real else 0.0
  }

  /** Thirty days of that price in dollars. */
  function Monthly(hour: real, certified: bool): real {
    Surcharge(certified) * (hour * 720.0 / 10000000.0)
  }

  /** What a month costs in dollars. */
  function Month(p: PricingPolicy, used: L.Resources, address: bool, certified: bool): real {
    var gib := 1073741824;
    Monthly(Hour(p, used.cru, used.mru / gib, used.hru / gib, used.sru / gib, address), certified)
  }

  /** A month of nothing but public addresses. */
  function AddressMonth(p: PricingPolicy, ips: nat, certified: bool): real {
    Surcharge(certified) * (ips as real * (p.ipu as real * 720.0 / 10000000.0))
  }

  function UsdPerTft(c: Calculation): real
    requires c.sub.billingRate.Ok?
  {
    c.sub.billingRate.value as real / 1000.0
  }

  /** The share of the price that a payer is let off, by how many months his balance covers. */
  function LetOff(c: Calculation, price: real): real
    requires c.identity.Some? ==> c.sub.balance(c.identity.value).Ok? && c.sub.billingRate.Ok?
  {
    if c.identity.None? then 0.0
    else Discount(c.sub.balance(c.identity.value).value as real / 10000000.0 * UsdPerTft(c), price)
  }

  /** A price less so many percent. */
  function Reduced(price: real, percent: nat): real {
    price * (1.0 - percent as real / 100.0)
  }

  /** What is left of a price. */
  function After(c: Calculation, price: real): real
    requires c.identity.Some? ==> c.sub.balance(c.identity.value).Ok? && c.sub.billingRate.Ok?
  {
    price * (1.0 - LetOff(c, price))
  }

  /** The chain answers what an amount asks for, and the contract is live. */
  predicate Answered(c: Calculation, id: nat) {
    && c.sub.contract(id).Ok? && !c.sub.contract(id).value.isDeleted && c.sub.payment(id).Ok?
    && c.sub.policy.Ok? && c.sub.billingRate.Ok? && c.sub.billingRate.value > 0
    && (c.identity.Some? ==> c.sub.balance(c.identity.value).Ok?)
  }

  function Overdrafts(c: Calculation, id: nat): real
    requires c.sub.payment(id).Ok?
  {
    c.sub.payment(id).value.standardOverdraft as real / 10000000.0
    + c.sub.payment(id).value.additionalOverdraft as real / 10000000.0
  }

  function Unbilled(c: Calculation, id: nat): real {
    if c.sub.billing(id).Ok? then c.sub.billing(id).value as real / 10000000.0 else 0.0
  }

  /** The months that have passed since the last update, with the allowance. */
  function Months(c: Calculation, id: nat, allowance: real): real
    requires c.sub.payment(id).Ok?
  {
    (c.now - c.sub.payment(id).value.lastUpdated as real + allowance) / 2592000.0
  }

  /** The contract is a node's, and the node known. */
  predicate OnNode(c: Calculation, id: nat, node: L.Node) {
    && Answered(c, id)
    && var contract := c.sub.contract(id).value;
    && contract.contractId == id && contract.contractType.NodeId().Some?
    && c.sub.node(contract.contractType.NodeId().value) == Ok(node)
    && c.now >= c.sub.payment(id).value.lastUpdated as real
  }

  predicate OnRentedNode(c: Calculation, node: L.Node) {
    c.sub.rentContract(node.id).Ok? && c.sub.rentContract(node.id).value != 0
  }

  // ---- Arithmetic ----

  lemma DivMul(x: real, y: real)
    requires y > 0.0
    ensures x / y * y == x
  {
  }

  lemma DivUnique(q: real, x: real, y: real)
    requires y > 0.0 && q * y == x
    ensures q == x / y
  {
  }

  /** Prices per second times seconds are prices per month times months. */
  lemma PeriodIsMonths(usd: real, rate: real, seconds: real)
    requires rate > 0.0
    ensures OverPeriod(PerSecond(usd / rate), seconds) == usd * (seconds / 2592000.0) / rate
  {
    var tft := usd / rate;
    DivMul(usd, rate);
    var q := OverPeriod(PerSecond(tft), seconds);
    assert q == tft * (seconds / 2592000.0) by { Reassociate(tft, seconds); }
    assert q * rate == usd * (seconds / 2592000.0) by { Swap(tft, seconds / 2592000.0, rate); }
    DivUnique(q, usd * (seconds / 2592000.0), rate);
  }

  lemma Reassociate(tft: real, seconds: real)
    ensures tft / 2592000.0 * seconds == tft * (seconds / 2592000.0)
  {
  }

  lemma Swap(a: real, b: real, c: real)
    ensures a * b * c == a * c * b
  {
  }

  lemma DivAdd(x: real, y: real, z: real)
    requires z > 0.0
    ensures x / z + y / z == (x + y) / z
  {
    DivMul(x, z);
    DivMul(y, z);
    DivUnique(x / z + y / z, x + y, z);
  }

  // ---- Prices ----

  lemma CostIsMonth(c: Calculation, used: L.Resources, address: bool, certified: bool)
    requires c.sub.policy.Ok?
    ensures var cost := c.Cost(used.cru, used.mru / GIB, used.hru / GIB, used.sru / GIB, address, certified);
            cost.Ok? && cost.value == Month(c.sub.policy.value, used, address, certified)
  {
    HourIs(c, c.sub.policy.value, used.cru, used.mru / GIB, used.hru / GIB, used.sru / GIB, address);
    CostIsMonthly(c, used.cru, used.mru / GIB, used.hru / GIB, used.sru / GIB, address, certified);
    hide Calculation.Cost, Calculation.CostUnits, Hour, Monthly;
  }

  lemma CostIsMonthly(c: Calculation, cru: nat, mru: nat, hru: nat, sru: nat, address: bool, certified: bool)
    requires c.sub.policy.Ok?
    ensures var cost := c.Cost(cru, mru, hru, sru, address, certified);
            cost.Ok? && cost.value == Monthly(c.CostUnits(c.sub.policy.value, cru, mru, hru, sru, address), certified)
  {
    hide Calculation.CostUnits;
    HourlyToMonthly(c.CostUnits(c.sub.policy.value, cru, mru, hru, sru, address), certified);
  }

  lemma HourIs(c: Calculation, p: PricingPolicy, cru: nat, mru: nat, hru: nat, sru: nat, address: bool)
    ensures c.CostUnits(p, cru, mru, hru, sru, address) == Hour(p, cru, mru, hru, sru, address)
  {
    assert CalculateSu(hru, sru) == Storage(hru, sru);
    hide CalculateCu, CalculateSu, Storage;
  }

  lemma HourlyToMonthly(units: real, certified: bool)
    ensures units * (if certified then 1.25 else 1.0) * 24.0 * 30.0 / 10000000.0 == Monthly(units, certified)
  {
  }

  lemma PricesAre(c: Calculation, cost: real)
    requires c.sub.policy.Ok? && c.sub.billingRate.Ok?
    requires c.identity.Some? ==> c.sub.balance(c.identity.value).Ok?
    ensures c.PricesAfterDiscount(cost).Ok?
    ensures c.PricesAfterDiscount(cost).value.1 == After(c, cost)
    ensures var d := Reduced(cost, c.sub.policy.value.dedicatedDiscount);
            c.PricesAfterDiscount(cost).value.0 == After(c, d)
  {
    hide Discount;
    var d := Dedicated(cost, c.sub.policy.value.dedicatedDiscount);
    assert d == Reduced(cost, c.sub.policy.value.dedicatedDiscount);
    hide Reduced;
    if c.identity.Some? {
      BalanceIs(c);
      hide Calculation.BalanceUsd;
      var usd := c.BalanceUsd().value.value;
      LetOffIs(c, cost, usd);
      LetOffIs(c, d, usd);
      hide LetOff, Dedicated;
      assert c.PricesAfterDiscount(cost).value.0 == d * (1.0 - Discount(usd, d));
      assert c.PricesAfterDiscount(cost).value.1 == cost * (1.0 - Discount(usd, cost));
    } else {
      assert c.BalanceUsd() == Ok(None);
      assert d * (1.0 - 0.0) == d && cost * (1.0 - 0.0) == cost;
    }
  }

  lemma LetOffIs(c: Calculation, price: real, usd: real)
    requires c.sub.billingRate.Ok? && c.identity.Some? && c.sub.balance(c.identity.value).Ok?
    requires usd == c.sub.balance(c.identity.value).value as real / 10000000.0 * UsdPerTft(c)
    ensures LetOff(c, price) == Discount(usd, price)
  {
  }

  lemma BalanceIs(c: Calculation)
    requires c.sub.billingRate.Ok? && c.identity.Some? && c.sub.balance(c.identity.value).Ok?
    ensures c.BalanceUsd().Ok? && c.BalanceUsd().value.Some?
    ensures c.BalanceUsd().value.value == c.sub.balance(c.identity.value).value as real / 10000000.0 * UsdPerTft(c)
  {
    var tft := c.sub.balance(c.identity.value).value as real / 10000000.0;
    assert c.TftToUsd(tft).value == tft * UsdPerTft(c);
  }

  /** The dollars a month of the contract costs, discounts taken off. */
  function NodeMonth(c: Calculation, id: nat, node: L.Node): real
    requires OnNode(c, id, node) && c.sub.resources(id).Ok?
  {
    var p, ips := c.sub.policy.value, c.sub.contract(id).value.contractType.nodeContract.publicIpsCount;
    var full := if OnRentedNode(c, node) && ips > 0 then AddressMonth(p, ips, node.isCertified)
                else Month(p, c.sub.resources(id).value, ips > 0, node.isCertified);
    After(c, full)
  }

  lemma NodeMonthIsCost(c: Calculation, id: nat, node: L.Node)
    requires OnNode(c, id, node) && c.sub.resources(id).Ok?
    ensures var cost := c.NodeContractCost(c.sub.contract(id).value, node);
            cost.Ok? && cost.value == NodeMonth(c, id, node)
  {
    hide Month, AddressMonth, Calculation.Cost, Calculation.RentedIpsCost, Calculation.PricesAfterDiscount, After;
    var contract, p := c.sub.contract(id).value, c.sub.policy.value;
    var ips, used := contract.contractType.nodeContract.publicIpsCount, c.sub.resources(id).value;
    if OnRentedNode(c, node) && ips > 0 {
      var full := AddressMonth(p, ips, node.isCertified);
      AddressesCost(c, ips, node.isCertified);
      PricesAre(c, full);
      assert c.NodeContractCost(contract, node).value == c.PricesAfterDiscount(full).value.1;
    } else {
      var full := Month(p, used, ips > 0, node.isCertified);
      CostIsMonth(c, used, ips > 0, node.isCertified);
      PricesAre(c, full);
      assert c.NodeContractCost(contract, node).value == c.PricesAfterDiscount(full).value.1;
    }
  }

  lemma AddressesCost(c: Calculation, ips: nat, certified: bool)
    requires c.sub.policy.Ok?
    ensures c.RentedIpsCost(ips, certified).Ok?
    ensures c.RentedIpsCost(ips, certified).value == AddressMonth(c.sub.policy.value, ips, certified)
  {
    var one := c.Ipv4CostPerMonth().value;
    assert one == c.sub.policy.value.ipu as real * 720.0 / 10000000.0;
    hide Calculation.Ipv4CostPerMonth;
    AddressFactors(one, ips as real, certified);
  }

  lemma AddressFactors(one: real, ips: real, certified: bool)
    ensures one * ips * (if certified then 1.25 else 1.0) == Surcharge(certified) * (ips * one)
  {
  }

  function RentMonth(c: Calculation, id: nat, node: L.Node): real
    requires OnNode(c, id, node) && c.sub.dedicatedPrice(node.id).Ok?
  {
    var p := c.sub.policy.value;
    var full := Month(p, node.resources, false, node.isCertified);
    var dedicated := Reduced(full, p.dedicatedDiscount);
    After(c, dedicated) + c.sub.dedicatedPrice(node.id).value as real / 1000.0
  }

  lemma RentMonthIsCost(c: Calculation, id: nat, node: L.Node)
    requires OnNode(c, id, node) && c.sub.dedicatedPrice(node.id).Ok?
    ensures c.RentContractCost(node).Ok? && c.RentContractCost(node).value == RentMonth(c, id, node)
  {
    hide Month, AddressMonth, Calculation.Cost, Calculation.RentedIpsCost, Calculation.PricesAfterDiscount, After;
    var full := Month(c.sub.policy.value, node.resources, false, node.isCertified);
    CostIsMonth(c, node.resources, false, node.isCertified);
    PricesAre(c, full);
    var prices := c.PricesAfterDiscount(full).value;
    hide Reduced;
    var dedicated := Reduced(full, c.sub.policy.value.dedicatedDiscount);
    assert prices.0 == After(c, dedicated);
    hide Dedicated;
    assert c.RentContractCost(node).value == prices.0 + c.sub.dedicatedPrice(node.id).value as real / 1000.0;
  }

  // ---- What is owed ----

  /** The period's cost: the month's dollars for as many months as passed, in TFT. */
  lemma PeriodIs(c: Calculation, id: nat, node: L.Node, month: real, allowance: real)
    requires OnNode(c, id, node)
    requires c.ContractCost(c.sub.contract(id).value, node).Ok?
    requires c.ContractCost(c.sub.contract(id).value, node).value == month
    ensures var contract, last := c.sub.contract(id).value, c.sub.payment(id).value.lastUpdated;
            var tft := c.PeriodCostTft(last, contract, Some(node), allowance);
            tft.Ok? && tft.value == month * Months(c, id, allowance) / UsdPerTft(c)
  {
    hide Calculation.ContractCost;
    var seconds := c.now - c.sub.payment(id).value.lastUpdated as real + allowance;
    PeriodIsMonths(month, UsdPerTft(c), seconds);
    assert c.UsdToTft(month).value == month / UsdPerTft(c);
    hide Calculation.UsdToTft, PerSecond, OverPeriod, UsdPerTft;
  }

  /** Use not billed yet is charged to rent contracts, and to node contracts with an address. */
  function UnbilledUsd(c: Calculation, id: nat, node: L.Node): real
    requires OnNode(c, id, node)
  {
    var contract := c.sub.contract(id).value.contractType;
    if contract.isRent || contract.nodeContract.publicIpsCount > 0 then
      Surcharge(node.isCertified) * Unbilled(c, id)
    else 0.0
  }

  predicate IsNodes(c: Calculation, id: nat) {
    && c.sub.contract(id).Ok?
    && !c.sub.contract(id).value.contractType.isName && !c.sub.contract(id).value.contractType.isRent
  }

  predicate IsRenting(c: Calculation, id: nat) {
    && c.sub.contract(id).Ok?
    && !c.sub.contract(id).value.contractType.isName && c.sub.contract(id).value.contractType.isRent
  }

  lemma UnbilledIs(c: Calculation, id: nat, node: L.Node)
    requires OnNode(c, id, node) && (IsNodes(c, id) || IsRenting(c, id))
    ensures var tft := c.UnbilledTft(c.sub.contract(id).value, node.isCertified);
            tft.Ok? && tft.value == UnbilledUsd(c, id, node) / UsdPerTft(c)
  {
    var usd := Unbilled(c, id);
    assert c.UsdToTft(usd * 1.25).value == usd * 1.25 / UsdPerTft(c);
    assert c.UsdToTft(usd).value == usd / UsdPerTft(c);
    assert usd * 1.0 == usd && 1.0 * usd == usd && usd * 1.25 == 1.25 * usd && 0.0 / UsdPerTft(c) == 0.0;
    hide Calculation.UsdToTft;
  }

  /** Unbilled use, and a month's price for each month passed. */
  function Usd(unbilled: real, month: real, months: real): real {
    unbilled + month * months
  }

  /** Overdrafts in TFT, and in dollars the unbilled use and a month's price for each month passed. */
  function Owed(c: Calculation, id: nat, node: L.Node, month: real, allowance: real): real
    requires OnNode(c, id, node)
  {
    Overdrafts(c, id) + Usd(UnbilledUsd(c, id, node), month, Months(c, id, allowance)) / UsdPerTft(c)
  }

  lemma OwnIs(c: Calculation, id: nat, node: L.Node, month: real, allowance: real)
    requires OnNode(c, id, node) && (IsNodes(c, id) || IsRenting(c, id))
    requires c.ContractCost(c.sub.contract(id).value, node).Ok?
    requires c.ContractCost(c.sub.contract(id).value, node).value == month
    ensures c.Own(id, allowance).Ok? && c.Own(id, allowance).value == Owed(c, id, node, month, allowance)
  {
    hide Calculation.ContractCost, Calculation.Own, Calculation.UnbilledTft, Calculation.PeriodCostTft;
    hide UnbilledUsd, Months, Overdrafts;
    UnbilledIs(c, id, node);
    PeriodIs(c, id, node, month, allowance);
    OwnSplits(c, id, node, allowance);
    DivAdd(UnbilledUsd(c, id, node), month * Months(c, id, allowance), UsdPerTft(c));
  }

  lemma OwnSplits(c: Calculation, id: nat, node: L.Node, allowance: real)
    requires OnNode(c, id, node)
    requires c.UnbilledTft(c.sub.contract(id).value, node.isCertified).Ok?
    requires c.PeriodCostTft(c.sub.payment(id).value.lastUpdated, c.sub.contract(id).value, Some(node), allowance).Ok?
    ensures c.Own(id, allowance).Ok?
    ensures var contract, last := c.sub.contract(id).value, c.sub.payment(id).value.lastUpdated;
            c.Own(id, allowance).value == Overdrafts(c, id) + c.UnbilledTft(contract, node.isCertified).value
                                          + c.PeriodCostTft(last, contract, Some(node), allowance).value
  {
    var payment := c.sub.payment(id).value;
    assert (payment.standardOverdraft + payment.additionalOverdraft) as real / 10000000.0 == Overdrafts(c, id);
    hide Calculation.UnbilledTft, Calculation.PeriodCostTft, Overdrafts;
  }

  /** A name contract owes the ceiling of its two overdrafts. */
  lemma NameOwes(c: Calculation, id: nat, allowance: real)
    requires Answered(c, id) && c.sub.contract(id).value.contractType.isName
    requires c.sub.contract(id).value.contractType.NodeId() == None
    ensures c.Overdue(id, allowance) == Ok(Ceil(Overdrafts(c, id)))
  {
    var payment := c.sub.payment(id).value;
    assert (payment.standardOverdraft + payment.additionalOverdraft) as real / 10000000.0 == Overdrafts(c, id);
    assert c.Own(id, allowance).value == Overdrafts(c, id);
  }

  /** A node's contract owes its overdrafts, its unbilled use, and a month's price for each month passed. */
  lemma NodeOwes(c: Calculation, id: nat, node: L.Node, allowance: real)
    requires OnNode(c, id, node) && IsNodes(c, id) && c.sub.resources(id).Ok?
    ensures c.Overdue(id, allowance) == Ok(Ceil(Owed(c, id, node, NodeMonth(c, id, node), allowance)))
  {
    NodeMonthIsCost(c, id, node);
    hide Calculation.NodeContractCost, Calculation.Own, Calculation.Overdue, NodeMonth, Owed;
    OwnIs(c, id, node, NodeMonth(c, id, node), allowance);
    OwnIsOwed(c, id, allowance);
  }

  lemma OwnIsOwed(c: Calculation, id: nat, allowance: real)
    requires !c.IsRent(id) && c.Own(id, allowance).Ok?
    ensures c.Overdue(id, allowance) == Ok(Ceil(c.Own(id, allowance).value))
  {
    hide Calculation.Own;
  }

  lemma RentIsOwed(c: Calculation, id: nat, listed: seq<nat>, extra: int, allowance: real)
    requires c.IsRent(id) && c.Own(id, allowance).Ok?
    requires c.sub.nodeContracts(c.sub.contract(id).value.contractType.rentNode) == Ok(listed)
    requires c.SumRounded(listed, allowance) == Ok(extra)
    ensures c.Overdue(id, allowance) == Ok(Ceil(c.Own(id, allowance).value + extra as real))
  {
    hide Calculation.Own, Calculation.SumRounded;
  }

  /** The sum of what a list of contracts owes. */
  function Total(c: Calculation, ids: seq<nat>, allowance: real): int
    requires forall x :: x in ids ==> c.Overdue(x, allowance).Ok?
  {
    if ids == [] then 0 else c.Overdue(ids[0], allowance).value + Total(c, ids[1..], allowance)
  }

  lemma {:induction false} TotalPush(c: Calculation, ids: seq<nat>, last: nat, allowance: real)
    requires forall x :: x in ids + [last] ==> c.Overdue(x, allowance).Ok?
    ensures Total(c, ids + [last], allowance)
            == (assert forall x :: x in ids ==> x in ids + [last]; Total(c, ids, allowance))
               + (assert last in ids + [last]; c.Overdue(last, allowance).value)
  {
    hide Calculation.Overdue;
    assert last in ids + [last];
    assert forall x :: x in ids ==> x in ids + [last];
    if ids != [] {
      assert (ids + [last])[1..] == ids[1..] + [last];
      TotalPush(c, ids[1..], last, allowance);
    }
  }

  lemma {:induction false} SumIsTotal(c: Calculation, ids: seq<nat>, allowance: real)
    requires forall x :: x in ids ==> !c.IsRent(x) && c.Overdue(x, allowance).Ok?
    ensures c.SumRounded(ids, allowance) == Ok(Total(c, ids, allowance))
    decreases |ids|
  {
    hide Calculation.Own;
    if ids != [] {
      var before, last := ids[..|ids| - 1], ids[|ids| - 1];
      assert ids == before + [last];
      SumIsTotal(c, before, allowance);
      TotalPush(c, before, last, allowance);
    }
  }

  /** A rent contract owes its overdrafts, unbilled use and rent, and everything the contracts on its node
      owe. */
  lemma RentOwes(c: Calculation, id: nat, node: L.Node, listed: seq<nat>, allowance: real)
    requires OnNode(c, id, node) && IsRenting(c, id) && c.sub.dedicatedPrice(node.id).Ok?
    requires c.sub.nodeContracts(c.sub.contract(id).value.contractType.rentNode) == Ok(listed)
    requires forall x :: x in listed ==> !c.IsRent(x) && c.Overdue(x, allowance).Ok?
    ensures c.Overdue(id, allowance)
            == Ok(Ceil(Owed(c, id, node, RentMonth(c, id, node), allowance) + Total(c, listed, allowance) as real))
  {
    RentMonthIsCost(c, id, node);
    hide Calculation.RentContractCost, Calculation.Own, Calculation.Overdue, RentMonth, Owed;
    hide Calculation.SumRounded;
    OwnIs(c, id, node, RentMonth(c, id, node), allowance);
    SumIsTotal(c, listed, allowance);
    RentIsOwed(c, id, listed, Total(c, listed, allowance), allowance);
  }

  // ---- What that means ----

  /** A fresh contract a month after its last update owes the ceiling of its monthly price in TFT. */
  lemma MonthOldOwes(c: Calculation, id: nat, node: L.Node)
    requires OnNode(c, id, node) && IsNodes(c, id) && c.sub.resources(id).Ok? && c.identity.None?
    requires c.sub.contract(id).value.contractType.nodeContract.publicIpsCount == 0
    requires c.sub.payment(id).value.standardOverdraft == 0 && c.sub.payment(id).value.additionalOverdraft == 0
    requires c.now == c.sub.payment(id).value.lastUpdated as real + 30.0 * 86400.0
    ensures var month := Month(c.sub.policy.value, c.sub.resources(id).value, false, node.isCertified);
            c.Overdue(id, 0.0) == Ok(Ceil(month / UsdPerTft(c)))
  {
    NodeOwes(c, id, node, 0.0);
    hide Calculation.Overdue, Month;
    var month := Month(c.sub.policy.value, c.sub.resources(id).value, false, node.isCertified);
    assert NodeMonth(c, id, node) == month * (1.0 - 0.0) == month;
    assert UnbilledUsd(c, id, node) == 0.0;
    assert Months(c, id, 0.0) == 1.0;
    assert Overdrafts(c, id) == 0.0;
    hide NodeMonth, UnbilledUsd, Months, Overdrafts;
    assert 0.0 + month * 1.0 == month;
  }

  /** The same chain with the node certified or not. */
  function Certified(c: Calculation, node: L.Node, certified: bool): Calculation {
    c.(sub := c.sub.(node := (n: nat) => if c.sub.node(n) == Ok(node) then Ok(node.(isCertified := certified))
                                         else c.sub.node(n)))
  }

  /** The dollars owed where the node is certified or not. */
  function UsdAs(c: Calculation, id: nat, node: L.Node, certified: bool, allowance: real): real
    requires OnNode(c, id, node) && c.sub.resources(id).Ok?
  {
    var d, n := Certified(c, node, certified), node.(isCertified := certified);
    Usd(UnbilledUsd(d, id, n), NodeMonth(d, id, n), Months(c, id, allowance))
  }

  /** Overdrafts and an amount in dollars, in TFT. */
  function InTft(c: Calculation, id: nat, usd: real): real
    requires Answered(c, id)
  {
    Overdrafts(c, id) + usd / UsdPerTft(c)
  }

  /** Certification makes the month and the unbilled use dearer by a quarter, and leaves overdrafts alone. */
  lemma CertificationAddsAQuarter(c: Calculation, id: nat, node: L.Node, certified: bool, allowance: real)
    requires OnNode(c, id, node) && IsNodes(c, id) && c.sub.resources(id).Ok? && c.identity.None?
    ensures var usd := (if certified then 1.25 else 1.0) * UsdAs(c, id, node, false, allowance);
            Certified(c, node, certified).Overdue(id, allowance) == Ok(Ceil(InTft(c, id, usd)))
  {
    CertifiedOwes(c, id, node, certified, allowance);
    QuarterOnUsd(c, id, node, certified, allowance);
  }

  lemma CertifiedOwes(c: Calculation, id: nat, node: L.Node, certified: bool, allowance: real)
    requires OnNode(c, id, node) && IsNodes(c, id) && c.sub.resources(id).Ok?
    ensures Certified(c, node, certified).Overdue(id, allowance)
            == Ok(Ceil(InTft(c, id, UsdAs(c, id, node, certified, allowance))))
  {
    var d, n := Certified(c, node, certified), node.(isCertified := certified);
    hide Calculation.Overdue, NodeMonth, Owed, UnbilledUsd, InTft, Months, Ceil;
    NodeOwes(d, id, n, allowance);
    var month, usd := NodeMonth(d, id, n), UsdAs(c, id, node, certified, allowance);
    hide UsdAs;
    OwedUnfolds(c, d, id, n, month, usd, allowance);
  }

  lemma QuarterOnUsd(c: Calculation, id: nat, node: L.Node, certified: bool, allowance: real)
    requires OnNode(c, id, node) && IsNodes(c, id) && c.sub.resources(id).Ok? && c.identity.None?
    ensures UsdAs(c, id, node, certified, allowance)
            == (if certified then 1.25 else 1.0) * UsdAs(c, id, node, false, allowance)
  {
    var plain, low := Certified(c, node, false), node.(isCertified := false);
    var d, n := Certified(c, node, certified), node.(isCertified := certified);
    QuarterOnMonth(c, id, node, certified);
    hide NodeMonth, UnbilledUsd, Months, Usd;
    Scaled(if certified then 1.25 else 1.0, UnbilledUsd(plain, id, low), NodeMonth(plain, id, low),
           Months(c, id, allowance), UnbilledUsd(d, id, n), NodeMonth(d, id, n));
  }

  lemma Scaled(factor: real, unbilled: real, month: real, months: real, unbilled': real, month': real)
    requires unbilled' == factor * unbilled && month' == factor * month
    ensures Usd(unbilled', month', months) == factor * Usd(unbilled, month, months)
  {
  }

  lemma OwedUnfolds(c: Calculation, d: Calculation, id: nat, node: L.Node, month: real, usd: real, allowance: real)
    requires OnNode(d, id, node) && c.sub.billingRate == d.sub.billingRate && c.now == d.now
    requires c.sub.payment(id) == d.sub.payment(id)
    requires Answered(c, id) && usd == Usd(UnbilledUsd(d, id, node), month, Months(c, id, allowance))
    ensures Owed(d, id, node, month, allowance) == InTft(c, id, usd)
  {
    assert Overdrafts(c, id) == Overdrafts(d, id) && Months(c, id, allowance) == Months(d, id, allowance);
    assert UsdPerTft(c) == UsdPerTft(d);
    hide UnbilledUsd, Overdrafts, Months, UsdPerTft, Usd;
  }

  lemma QuarterOnMonth(c: Calculation, id: nat, node: L.Node, certified: bool)
    requires OnNode(c, id, node) && IsNodes(c, id) && c.sub.resources(id).Ok? && c.identity.None?
    ensures var plain, low := Certified(c, node, false), node.(isCertified := false);
            var d, n, factor := Certified(c, node, certified), node.(isCertified := certified),
                                if certified then 1.25 else 1.0;
            && UnbilledUsd(d, id, n) == factor * UnbilledUsd(plain, id, low)
            && NodeMonth(d, id, n) == factor * NodeMonth(plain, id, low)
  {
    hide CalculateCu;
    var p, used := c.sub.policy.value, c.sub.resources(id).value;
    var ips := c.sub.contract(id).value.contractType.nodeContract.publicIpsCount;
    MonthQuarter(p, used, ips > 0);
    assert AddressMonth(p, ips, true) == 1.25 * AddressMonth(p, ips, false);
    hide Month, AddressMonth;
  }

  lemma MonthQuarter(p: PricingPolicy, used: L.Resources, address: bool)
    ensures Month(p, used, address, true) == 1.25 * Month(p, used, address, false)
  {
    hide CalculateCu;
  }

  /** The same chain with other overdrafts of one contract. */
  function WithOverdrafts(c: Calculation, id: nat, standard: nat, additional: nat): Calculation
    requires c.sub.payment(id).Ok?
  {
    var p := c.sub.payment(id).value.(standardOverdraft := standard, additionalOverdraft := additional);
    c.(sub := c.sub.(payment := (x: nat) => if x == id then Ok(p) else c.sub.payment(x)))
  }

  /** Ten million units, one TFT, more on either overdraft. */
  ghost predicate OneTftMore(c: Calculation, id: nat, more: Calculation) {
    && c.sub.payment(id).Ok?
    && var p := c.sub.payment(id).value;
       || more == WithOverdrafts(c, id, p.standardOverdraft + 10000000, p.additionalOverdraft)
       || more == WithOverdrafts(c, id, p.standardOverdraft, p.additionalOverdraft + 10000000)
  }

  /** One TFT more of either overdraft is one TFT more to pay - and one more for each time the contract is on
      the list its rent asks for. */
  lemma OverdraftIsOneTft(c: Calculation, id: nat, more: Calculation, allowance: real)
    requires OneTftMore(c, id, more) && c.Overdue(id, allowance).Ok?
    ensures var times := if c.IsRent(id) then multiset(ListedWith(c, id).value)[id] else 0;
            more.Overdue(id, allowance) == Ok(c.Overdue(id, allowance).value + 1 + times)
  {
    OwnGrowsByOne(c, id, more, allowance);
    assert more.sub.contract == c.sub.contract && more.sub.nodeContracts == c.sub.nodeContracts;
    if c.IsRent(id) {
      RentGrowsByTimes(c, id, ListedWith(c, id).value, more, allowance);
    } else {
      hide OneTftMore;
      OwnIsOwed(c, id, allowance);
      OwnIsOwed(more, id, allowance);
      hide Calculation.Own, Calculation.Overdue;
      CeilOfMore(c.Own(id, allowance).value, 1);
    }
  }

  lemma RentGrowsByTimes(c: Calculation, id: nat, listed: seq<nat>, more: Calculation, allowance: real)
    requires OneTftMore(c, id, more) && c.Overdue(id, allowance).Ok? && c.IsRent(id)
    requires ListedWith(c, id) == Ok(listed) && more.IsRent(id) && ListedWith(more, id) == Ok(listed)
    ensures more.Overdue(id, allowance) == Ok(c.Overdue(id, allowance).value + 1 + multiset(listed)[id])
  {
    hide OneTftMore, Calculation.Own, Calculation.SumRounded;
    OwnGrowsByOne(c, id, more, allowance);
    SumGrowsByTimes(c, id, listed, more, allowance);
    var times: nat := multiset(listed)[id];
    var own, extra := c.Own(id, allowance).value, c.SumRounded(listed, allowance).value;
    RentIsOwed(c, id, listed, extra, allowance);
    RentIsOwed(more, id, listed, extra + times, allowance);
    hide Calculation.Overdue;
    CeilOfMore(own + extra as real, 1 + times);
    assert own + 1.0 + (extra + times) as real == own + extra as real + (1 + times) as real;
  }

  lemma CeilOfMore(x: real, n: int)
    ensures Ceil(x + n as real) == Ceil(x) + n
  {
  }

  lemma RatesIgnorePayments(c: Calculation, more: Calculation, x: real)
    requires more.sub.billingRate == c.sub.billingRate
    ensures more.TftToUsd(x) == c.TftToUsd(x) && more.UsdToTft(x) == c.UsdToTft(x)
  {
    if c.sub.billingRate.Ok? {
      assert more.TftToUsd(x).value == c.TftToUsd(x).value;
      if c.sub.billingRate.value != 0 { assert more.UsdToTft(x).value == c.UsdToTft(x).value; }
    }
  }

  lemma PricesIgnorePayments(c: Calculation, more: Calculation, cost: real)
    requires more == c.(sub := c.sub.(payment := more.sub.payment))
    ensures more.PricesAfterDiscount(cost) == c.PricesAfterDiscount(cost)
  {
    assert more.sub.policy == c.sub.policy && more.sub.billingRate == c.sub.billingRate;
    assert more.sub.balance == c.sub.balance && more.identity == c.identity;
    forall x ensures more.TftToUsd(x) == c.TftToUsd(x) { RatesIgnorePayments(c, more, x); }
    hide Calculation.TftToUsd;
    assert more.BalanceUsd() == c.BalanceUsd();
    hide Dedicated, Discount, Calculation.BalanceUsd;
  }

  lemma UniqueNamesIgnorePayments(c: Calculation, more: Calculation)
    requires more == c.(sub := c.sub.(payment := more.sub.payment))
    ensures more.UniqueNameCost() == c.UniqueNameCost()
  {
    assert more.sub.policy == c.sub.policy;
    if c.sub.policy.Ok? {
      var cost := c.sub.policy.value.uniqueName as real * 24.0 * 30.0 / UNIT_FACTOR;
      PricesIgnorePayments(c, more, cost);
      hide Calculation.PricesAfterDiscount;
    }
  }

  lemma CostIgnoresPayments(c: Calculation, more: Calculation, a: nat, b: nat, d: nat, e: nat, ip: bool, f: bool)
    requires more.sub.policy == c.sub.policy
    ensures more.Cost(a, b, d, e, ip, f) == c.Cost(a, b, d, e, ip, f)
  {
    if c.sub.policy.Ok? {
      UnitsIgnorePayments(c, more);
      hide Calculation.CostUnits;
      assert more.Cost(a, b, d, e, ip, f).value == c.Cost(a, b, d, e, ip, f).value;
    }
  }

  lemma AddressesIgnorePayments(c: Calculation, more: Calculation, ips: nat, certified: bool)
    requires more.sub.policy == c.sub.policy
    ensures more.RentedIpsCost(ips, certified) == c.RentedIpsCost(ips, certified)
  {
    if c.sub.policy.Ok? {
      assert more.Ipv4CostPerMonth().value == c.Ipv4CostPerMonth().value;
      hide Calculation.Ipv4CostPerMonth;
      assert more.RentedIpsCost(ips, certified).value == c.RentedIpsCost(ips, certified).value;
    }
  }

  lemma NodeCostIgnoresPayments(c: Calculation, more: Calculation, contract: L.Contract, node: L.Node)
    requires more == c.(sub := c.sub.(payment := more.sub.payment))
    ensures more.NodeContractCost(contract, node) == c.NodeContractCost(contract, node)
  {
    var ips, used := contract.contractType.nodeContract.publicIpsCount, c.sub.resources(contract.contractId);
    assert more.sub.policy == c.sub.policy && more.sub.resources == c.sub.resources;
    assert more.sub.rentContract == c.sub.rentContract;
    if used.Ok? {
      var u := used.value;
      CostIgnoresPayments(c, more, u.cru, u.mru / GIB, u.hru / GIB, u.sru / GIB, ips > 0, node.isCertified);
      AddressesIgnorePayments(c, more, ips, node.isCertified);
      forall cost ensures more.PricesAfterDiscount(cost) == c.PricesAfterDiscount(cost) {
        PricesIgnorePayments(c, more, cost);
      }
    }
    hide Calculation.PricesAfterDiscount, Calculation.Cost, Calculation.RentedIpsCost;
  }

  lemma RentCostIgnoresPayments(c: Calculation, more: Calculation, node: L.Node)
    requires more == c.(sub := c.sub.(payment := more.sub.payment))
    ensures more.RentContractCost(node) == c.RentContractCost(node)
  {
    var u := node.resources;
    assert more.sub.policy == c.sub.policy && more.sub.dedicatedPrice == c.sub.dedicatedPrice;
    CostIgnoresPayments(c, more, u.cru, u.mru / GIB, u.hru / GIB, u.sru / GIB, false, node.isCertified);
    forall cost ensures more.PricesAfterDiscount(cost) == c.PricesAfterDiscount(cost) {
      PricesIgnorePayments(c, more, cost);
    }
    hide Calculation.PricesAfterDiscount, Calculation.Cost;
  }

  lemma CostsIgnorePayments(c: Calculation, more: Calculation, contract: L.Contract, node: L.Node)
    requires more == c.(sub := c.sub.(payment := more.sub.payment))
    ensures more.ContractCost(contract, node) == c.ContractCost(contract, node)
  {
    UniqueNamesIgnorePayments(c, more);
    NodeCostIgnoresPayments(c, more, contract, node);
    RentCostIgnoresPayments(c, more, node);
    hide Calculation.UniqueNameCost, Calculation.NodeContractCost, Calculation.RentContractCost;
  }

  lemma UnitsIgnorePayments(c: Calculation, more: Calculation)
    ensures forall p, a, b, d, e, ip :: more.CostUnits(p, a, b, d, e, ip) == c.CostUnits(p, a, b, d, e, ip)
  {
    hide CalculateCu, CalculateSu;
  }

  /** Apart from overdrafts and the time of the last update, nothing reads the payment state. */
  lemma OthersIgnorePayments(c: Calculation, more: Calculation, contract: L.Contract, last: nat, node: Option<L.Node>,
                             certified: bool, allowance: real)
    requires more == c.(sub := c.sub.(payment := more.sub.payment))
    ensures more.UnbilledTft(contract, certified) == c.UnbilledTft(contract, certified)
    ensures more.PeriodCostTft(last, contract, node, allowance) == c.PeriodCostTft(last, contract, node, allowance)
  {
    forall usd ensures more.UsdToTft(usd) == c.UsdToTft(usd) { RatesIgnorePayments(c, more, usd); }
    hide Calculation.UsdToTft, Calculation.ContractCost, PerSecond, OverPeriod;
    if node.Some? { CostsIgnorePayments(c, more, contract, node.value); }
  }

  /** What a contract owes by itself depends on the overdrafts by their sum alone. */
  lemma OwnByOverdrafts(c: Calculation, more: Calculation, id: nat, allowance: real)
    requires more == c.(sub := c.sub.(payment := more.sub.payment))
    requires c.sub.payment(id).Ok? && more.sub.payment(id).Ok?
    requires c.sub.payment(id).value.lastUpdated == more.sub.payment(id).value.lastUpdated
    ensures more.Own(id, allowance).Ok? <==> c.Own(id, allowance).Ok?
    ensures c.Own(id, allowance).Err? ==> more.Own(id, allowance) == c.Own(id, allowance)
    ensures c.Own(id, allowance).Ok? ==>
              more.Own(id, allowance).value - Overdrafts(more, id) == c.Own(id, allowance).value - Overdrafts(c, id)
  {
    if c.sub.contract(id).Ok? {
      var contract := c.sub.contract(id).value;
      var owner := contract.contractType.NodeId();
      var node := if owner.Some? && c.sub.node(owner.value).Ok? then Some(c.sub.node(owner.value).value) else None;
      OthersIgnorePayments(c, more, contract, c.sub.payment(id).value.lastUpdated, node,
                           node.Some? && node.value.isCertified, allowance);
      hide Calculation.UnbilledTft, Calculation.PeriodCostTft;
    }
  }

  lemma OwnGrowsByOne(c: Calculation, id: nat, more: Calculation, allowance: real)
    requires OneTftMore(c, id, more) && c.Own(id, allowance).Ok?
    ensures more.Own(id, allowance).Ok? && more.Own(id, allowance).value == c.Own(id, allowance).value + 1.0
  {
    hide Calculation.Own;
    OwnByOverdrafts(c, more, id, allowance);
  }

  lemma OtherOwnsStay(c: Calculation, id: nat, more: Calculation, other: nat, allowance: real)
    requires OneTftMore(c, id, more) && other != id
    ensures more.Own(other, allowance) == c.Own(other, allowance)
  {
    if c.sub.payment(other).Ok? {
      hide Calculation.Own;
      OwnByOverdrafts(c, more, other, allowance);
      assert Overdrafts(c, other) == Overdrafts(more, other);
    }
  }

  lemma SumPush(c: Calculation, ids: seq<nat>, last: nat, allowance: real)
    ensures c.SumRounded(ids + [last], allowance).Ok?
       <==> c.SumRounded(ids, allowance).Ok? && c.Own(last, allowance).Ok?
    ensures c.SumRounded(ids + [last], allowance).Ok? ==>
              c.SumRounded(ids + [last], allowance).value
              == c.SumRounded(ids, allowance).value + Ceil(c.Own(last, allowance).value)
  {
    hide Calculation.Own;
    assert (ids + [last])[..|ids|] == ids;
  }

  lemma {:induction false} SumGrowsByTimes(c: Calculation, id: nat, ids: seq<nat>, more: Calculation, allowance: real)
    requires OneTftMore(c, id, more) && c.Own(id, allowance).Ok? && c.SumRounded(ids, allowance).Ok?
    ensures more.SumRounded(ids, allowance).Ok?
    ensures more.SumRounded(ids, allowance).value == c.SumRounded(ids, allowance).value + multiset(ids)[id]
    decreases |ids|
  {
    hide Calculation.Own, OneTftMore;
    if ids != [] {
      var before, last := ids[..|ids| - 1], ids[|ids| - 1];
      assert ids == before + [last];
      hide Calculation.SumRounded;
      SumPush(c, before, last, allowance);
      SumPush(more, before, last, allowance);
      SumGrowsByTimes(c, id, before, more, allowance);
      if last == id {
        OwnGrowsByOne(c, id, more, allowance);
        CeilOfMore(c.Own(id, allowance).value, 1);
      } else {
        OtherOwnsStay(c, id, more, last, allowance);
      }
    }
  }
}
