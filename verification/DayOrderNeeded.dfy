/** Why the conditions under which the order of a day is free are needed: what particular orders demand. */
module DayOrderNeeded {
  import opened Collections
  import opened Schema
  import opened Ledger
  import opened DayOrder

  // ------------------------------------------------- sales and the others

  function IsSell(): Transaction -> bool { (t: Transaction) => t.kind.Sell? }

  function NoSell(): Transaction -> bool { (t: Transaction) => !t.kind.Sell? }

  function Sells(day: seq<Transaction>): seq<Transaction> { Filter(IsSell(), day) }

  function Others(day: seq<Transaction>): seq<Transaction> { Filter(NoSell(), day) }

  lemma {:induction false} Parts(day: seq<Transaction>)
    ensures multiset(Sells(day)) + multiset(Others(day)) == multiset(day)
  {
    if day != [] {
      Parts(day[1..]);
      assert day == [day[0]] + day[1..];
    }
  }

  lemma NothingElse(sells: seq<Transaction>, others: seq<Transaction>)
    requires (forall t :: t in sells ==> t.kind.Sell?) && !HasSell(others)
    ensures Sum(BoughtShares, sells) == 0.0 && Sum(MoneyMoved, sells) == 0.0 && Sum(SoldShares, others) == 0.0
  {
    SumNil(BoughtShares, sells);
    SumNil(MoneyMoved, sells);
    SumNil(SoldShares, others);
  }

  lemma PartMembers(day: seq<Transaction>)
    ensures (forall t :: t in Sells(day) ==> t in day && t.kind.Sell?) && !HasSell(Others(day))
    ensures forall t :: t in day ==> if t.kind.Sell? then t in Sells(day) else t in Others(day)
    ensures HasSell(day) ==> Sells(day) != []
  {
    FilterMembers(IsSell(), day);
    FilterMembers(NoSell(), day);
  }

  lemma PartTotals(day: seq<Transaction>)
    ensures Sum(SoldShares, day) == Sum(SoldShares, Sells(day))
    ensures Sum(BoughtShares, day) == Sum(BoughtShares, Others(day))
    ensures Sum(MoneyMoved, day) == Sum(MoneyMoved, Others(day))
  {
    PartMembers(day);
    Parts(day);
    SameTotals(Sells(day) + Others(day), day);
    SumConcat(SoldShares, Sells(day), Others(day));
    SumConcat(BoughtShares, Sells(day), Others(day));
    SumConcat(MoneyMoved, Sells(day), Others(day));
    NothingElse(Sells(day), Others(day));
  }

  function GroupCost(m: Metrics, sold: real, bought: real, money: real): real
    requires sold >= 0.0
  {
    CostAfterSell(m.shares + bought, m.cost + money, sold)
  }

  lemma ThenSells(m: Metrics, pre: seq<Transaction>, sells: seq<Transaction>)
    requires !HasSell(pre) && sells != [] && forall t :: t in sells ==> t.kind.Sell?
    ensures Sum(SoldShares, sells) >= 0.0
    ensures Fold(MetricsStep, m, pre + sells).cost ==
            GroupCost(m, Sum(SoldShares, sells), Sum(BoughtShares, pre), Sum(MoneyMoved, pre))
  {
    FoldConcat(MetricsStep, m, pre, sells);
    NonSellsTotal(m, pre);
    SellsTotal(Fold(MetricsStep, m, pre), sells);
  }

  /** Some transactions, then sales, then the other transactions. */
  lemma GroupedCost(m: Metrics, pre: seq<Transaction>, sells: seq<Transaction>, post: seq<Transaction>)
    requires !HasSell(pre) && !HasSell(post) && sells != [] && forall t :: t in sells ==> t.kind.Sell?
    ensures Sum(SoldShares, sells) >= 0.0
    ensures Fold(MetricsStep, m, pre + sells + post).cost ==
            GroupCost(m, Sum(SoldShares, sells), Sum(BoughtShares, pre), Sum(MoneyMoved, pre)) +
            Sum(MoneyMoved, post)
  {
    FoldConcat(MetricsStep, m, pre + sells, post);
    ThenSells(m, pre, sells);
    NonSellsTotal(Fold(MetricsStep, m, pre + sells), post);
  }

  lemma Rearranged(day: seq<Transaction>, pre: seq<Transaction>, post: seq<Transaction>)
    requires multiset(pre + post) == multiset(Others(day))
    ensures multiset(pre + Sells(day) + post) == multiset(day)
  {
    Parts(day);
    assert multiset(pre + post) == multiset(pre) + multiset(post);
  }

  lemma OthersHaveNoSell(day: seq<Transaction>, pre: seq<Transaction>, post: seq<Transaction>)
    requires multiset(pre + post) == multiset(Others(day))
    ensures !HasSell(pre) && !HasSell(post)
  {
    PartMembers(day);
    SameTotals(pre + post, Others(day));
    assert forall t :: t in pre || t in post ==> t in pre + post;
  }

  function Grouped(pre: seq<Transaction>, day: seq<Transaction>, post: seq<Transaction>): seq<Transaction>
  {
    pre + Sells(day) + post
  }

  lemma GroupedDay(m: Metrics, day: seq<Transaction>, pre: seq<Transaction>, post: seq<Transaction>)
    requires HasSell(day) && multiset(pre + post) == multiset(Others(day))
    ensures Sum(SoldShares, day) >= 0.0
    ensures Fold(MetricsStep, m, Grouped(pre, day, post)).cost ==
            GroupCost(m, Sum(SoldShares, day), Sum(BoughtShares, pre), Sum(MoneyMoved, pre)) + Sum(MoneyMoved, post)
  {
    PartMembers(day);
    PartTotals(day);
    OthersHaveNoSell(day, pre, post);
    GroupedCost(m, pre, Sells(day), post);
  }

  lemma AgreedCost(m: Metrics, day: seq<Transaction>, pre: seq<Transaction>, post: seq<Transaction>)
    requires AllOrdersAgree(m, day) && HasSell(day) && multiset(pre + post) == multiset(Others(day))
    ensures Sum(SoldShares, day) >= 0.0
    ensures Fold(MetricsStep, m, day).cost ==
            GroupCost(m, Sum(SoldShares, day), Sum(BoughtShares, pre), Sum(MoneyMoved, pre)) + Sum(MoneyMoved, post)
  {
    GroupedDay(m, day, pre, post);
    Rearranged(day, pre, post);
    assert multiset(Grouped(pre, day, post)) == multiset(day);
  }

  lemma MovedNeutral(m: Metrics, sold: real, bought: real, money: real, rest: real)
    requires sold >= 0.0 && bought >= 0.0
    requires GroupCost(m, sold, bought, money) + rest == GroupCost(m, sold, 0.0, 0.0) + (money + rest)
    ensures Neutral(m.shares, m.cost, sold, bought, money)
  {
    NeutralIff(m.shares, m.cost, sold, bought, money);
  }

  // ------------------------------------------- what agreement demands

  /** When all orders agree, any part of the other transactions may be moved in front of the sales. */
  lemma PartNeutral(m: Metrics, day: seq<Transaction>, pre: seq<Transaction>, post: seq<Transaction>)
    requires AllOrdersAgree(m, day) && HasSell(day) && multiset(pre + post) == multiset(Others(day))
    ensures Neutral(m.shares, m.cost, Sum(SoldShares, day), Sum(BoughtShares, pre), Sum(MoneyMoved, pre))
  {
    var none: seq<Transaction> := [];
    assert none + (pre + post) == pre + post;
    AgreedCost(m, day, pre, post);
    AgreedCost(m, day, none, pre + post);
    SumConcat(MoneyMoved, pre, post);
    TotalsNonNegative(pre);
    MovedNeutral(m, Sum(SoldShares, day), Sum(BoughtShares, pre), Sum(MoneyMoved, pre), Sum(MoneyMoved, post));
  }

  function Without(ts: seq<Transaction>, i: nat): seq<Transaction>
    requires i < |ts|
  {
    ts[..i] + ts[i + 1..]
  }

  lemma TakenOut(ts: seq<Transaction>, i: nat)
    requires i < |ts|
    ensures multiset([ts[i]] + Without(ts, i)) == multiset(ts)
  {
    assert ts == ts[..i] + [ts[i]] + ts[i + 1..];
  }

  lemma OneNeutral(m: Metrics, day: seq<Transaction>, i: nat)
    requires AllOrdersAgree(m, day) && HasSell(day) && i < |Others(day)|
    ensures var x := Others(day)[i];
            Neutral(m.shares, m.cost, Sum(SoldShares, day), BoughtShares(x), MoneyMoved(x))
  {
    var x := Others(day)[i];
    TakenOut(Others(day), i);
    PartNeutral(m, day, [x], Without(Others(day), i));
    SumOne(BoughtShares, x);
    SumOne(MoneyMoved, x);
  }

  lemma WholeNeutral(m: Metrics, day: seq<Transaction>)
    requires AllOrdersAgree(m, day) && HasSell(day)
    ensures Neutral(m.shares, m.cost, Sum(SoldShares, day), Sum(BoughtShares, day), Sum(MoneyMoved, day))
  {
    assert Others(day) + [] == Others(day);
    PartNeutral(m, day, Others(day), []);
    PartTotals(day);
  }

  lemma SumTwo(f: Transaction -> real, x: Transaction, y: Transaction)
    ensures Sum(f, [x, y]) == f(x) + f(y)
  {
    assert [x, y] == [x] + [y];
    SumConcat(f, [x], [y]);
    SumOne(f, x);
    SumOne(f, y);
  }

  lemma TwoTakenOut(ts: seq<Transaction>, i: nat, j: nat) returns (rest: seq<Transaction>)
    requires i < |ts| && j < |ts| && i != j
    ensures multiset([ts[i], ts[j]] + rest) == multiset(ts)
  {
    var one := Without(ts, i);
    var k := if j < i then j else j - 1;
    assert one[k] == ts[j];
    TakenOut(ts, i);
    TakenOut(one, k);
    rest := Without(one, k);
    assert [ts[i], ts[j]] + rest == [ts[i]] + ([ts[j]] + rest);
  }

  lemma PairNeutral(m: Metrics, day: seq<Transaction>, i: nat, j: nat)
    requires AllOrdersAgree(m, day) && HasSell(day) && i < |Others(day)| && j < |Others(day)| && i != j
    ensures var x, y := Others(day)[i], Others(day)[j];
            Neutral(m.shares, m.cost, Sum(SoldShares, day), BoughtShares(x) + BoughtShares(y),
                    MoneyMoved(x) + MoneyMoved(y))
  {
    var x, y := Others(day)[i], Others(day)[j];
    var rest := TwoTakenOut(Others(day), i, j);
    PartNeutral(m, day, [x, y], rest);
    SumTwo(BoughtShares, x, y);
    SumTwo(MoneyMoved, x, y);
  }

  /** The sales too: one that leaves others behind it sells nothing. */
  lemma OnlySale(s: real, c: real, sold: real, bought: real, money: real, t: real)
    requires 0.0 <= t <= sold && s < sold && s + bought > sold && money != 0.0
    requires c * (s + bought - sold) == money * sold
    requires CostAfterSell(s, c, t) * (s + bought - sold) == money * (sold - t)
    ensures t == sold || (t == 0.0 && s > 0.0)
  {
    var left := s + bought - sold;
    if s > t {
      var kept := CostAfterSell(s, c, t);
      Scaled(c, s, s - t);
      assert kept * s == c * (s - t);
      assert (kept * s) * left == (kept * left) * s;
      assert (c * (s - t)) * left == (c * left) * (s - t);
      assert money * (sold - t) * s == money * sold * (s - t);
      assert money * (sold - t) * s - money * sold * (s - t) == money * (t * (sold - s));
      ZeroFactor(money, t * (sold - s));
      ZeroFactor(t, sold - s);
    } else {
      ZeroFactor(money, sold - t);
    }
  }

  /** One sale, then one of the other transactions, then all the rest. */
  lemma SaleThenOne(m: Metrics, t: Transaction, x: Transaction, sells: seq<Transaction>, others: seq<Transaction>)
    requires t.kind.Sell? && !x.kind.Sell? && !HasSell(others) && sells != [] && forall u :: u in sells ==> u.kind.Sell?
    ensures Sum(SoldShares, sells) >= 0.0
    ensures Fold(MetricsStep, m, [t] + ([x] + sells + others)).cost ==
            GroupCost(MetricsStep(m, t), Sum(SoldShares, sells), BoughtShares(x), MoneyMoved(x)) +
            Sum(MoneyMoved, others)
  {
    var rest := [x] + sells + others;
    assert ([t] + rest)[1..] == rest;
    GroupedCost(MetricsStep(m, t), [x], sells, others);
    SumOne(BoughtShares, x);
    SumOne(MoneyMoved, x);
  }

  lemma SumWithout(f: Transaction -> real, ts: seq<Transaction>, i: nat)
    requires i < |ts|
    ensures Sum(f, Without(ts, i)) == Sum(f, ts) - f(ts[i])
  {
    TakenOut(ts, i);
    SumPermutation(f, [ts[i]] + Without(ts, i), ts);
    SumConcat(f, [ts[i]], Without(ts, i));
    SumOne(f, ts[i]);
  }

  /** A sale of the day in front, then one of the other transactions, then the rest. */
  function Reordered(day: seq<Transaction>, i: nat, k: nat): seq<Transaction>
    requires i < |Others(day)| && k < |Sells(day)|
  {
    [Sells(day)[k]] + ([Others(day)[i]] + Without(Sells(day), k) + Without(Others(day), i))
  }

  lemma ReorderedDay(day: seq<Transaction>, i: nat, k: nat)
    requires i < |Others(day)| && k < |Sells(day)|
    ensures multiset(Reordered(day, i, k)) == multiset(day)
  {
    var t, x, sells, others := Sells(day)[k], Others(day)[i], Without(Sells(day), k), Without(Others(day), i);
    TakenOut(Sells(day), k);
    TakenOut(Others(day), i);
    Parts(day);
    assert multiset([t] + ([x] + sells + others)) == multiset([t] + sells) + multiset([x] + others);
  }

  lemma KindsWithout(day: seq<Transaction>, i: nat, k: nat)
    requires i < |Others(day)| && k < |Sells(day)|
    ensures Sells(day)[k].kind.Sell? && !Others(day)[i].kind.Sell? && HasSell(day)
    ensures !HasSell(Without(Others(day), i)) && forall u :: u in Without(Sells(day), k) ==> u.kind.Sell?
  {
    PartMembers(day);
    assert Sells(day)[k] in Sells(day) && Others(day)[i] in Others(day);
    assert forall u :: u in Without(Others(day), i) ==> u in Others(day);
    assert forall u :: u in Without(Sells(day), k) ==> u in Sells(day);
  }

  lemma ReorderedCost(m: Metrics, day: seq<Transaction>, i: nat, k: nat)
    requires i < |Others(day)| && k < |Sells(day)| && Without(Sells(day), k) != []
    requires Sum(MoneyMoved, Others(day)) == MoneyMoved(Others(day)[i])
    ensures var t, x := Sells(day)[k], Others(day)[i];
            var sold := Sum(SoldShares, day) - t.shares;
            sold >= 0.0 && Fold(MetricsStep, m, Reordered(day, i, k)).cost ==
                           GroupCost(MetricsStep(m, t), sold, BoughtShares(x), MoneyMoved(x))
  {
    KindsWithout(day, i, k);
    SaleThenOne(m, Sells(day)[k], Others(day)[i], Without(Sells(day), k), Without(Others(day), i));
    SumWithout(SoldShares, Sells(day), k);
    SumWithout(MoneyMoved, Others(day), i);
    PartTotals(day);
  }

  /** What the order with one sale in front says, when all orders agree. */
  lemma SaleInFront(m: Metrics, day: seq<Transaction>, i: nat, k: nat)
    requires AllOrdersAgree(m, day) && i < |Others(day)| && k < |Sells(day)| && Without(Sells(day), k) != []
    requires Sum(MoneyMoved, Others(day)) == MoneyMoved(Others(day)[i]) && m.shares < Sum(SoldShares, day)
    ensures var t, x := Sells(day)[k], Others(day)[i];
            var sold := Sum(SoldShares, day) - t.shares;
            sold >= 0.0 && GroupCost(MetricsStep(m, t), sold, BoughtShares(x), MoneyMoved(x)) == MoneyMoved(x)
  {
    KindsWithout(day, i, k);
    ReorderedCost(m, day, i, k);
    ReorderedDay(day, i, k);
    assert Fold(MetricsStep, m, Reordered(day, i, k)) == Fold(MetricsStep, m, day);
    var none: seq<Transaction> := [];
    assert none + Others(day) == Others(day);
    AgreedCost(m, day, none, Others(day));
  }

  lemma FrontMeans(m: Metrics, sold: real, t: Transaction, bought: real, money: real)
    requires t.kind.Sell? && t.shares <= sold && m.shares < sold && bought >= 0.0 && money != 0.0
    requires Repaid(m, sold, bought, money)
    requires GroupCost(MetricsStep(m, t), sold - t.shares, bought, money) == money
    ensures t.shares == sold || (t.shares == 0.0 && m.shares > 0.0)
  {
    SoldOut(m.shares - t.shares, MetricsStep(m, t).cost, sold - t.shares, bought, money);
    OnlySale(m.shares, m.cost, sold, bought, money, t.shares);
  }

  lemma LoneSale(m: Metrics, day: seq<Transaction>, i: nat, k: nat, sold: real)
    requires AllOrdersAgree(m, day) && i < |Others(day)| && k < |Sells(day)| && sold == Sum(SoldShares, day)
    requires Sum(MoneyMoved, Others(day)) == MoneyMoved(Others(day)[i]) && MoneyMoved(Others(day)[i]) != 0.0
    requires m.shares < sold && Repaid(m, sold, BoughtShares(Others(day)[i]), MoneyMoved(Others(day)[i]))
    ensures Sells(day)[k].shares == sold || (Sells(day)[k].shares == 0.0 && m.shares > 0.0)
  {
    var t, x := Sells(day)[k], Others(day)[i];
    KindsWithout(day, i, k);
    if Without(Sells(day), k) != [] {
      SaleInFront(m, day, i, k);
      FrontMeans(m, sold, t, BoughtShares(x), MoneyMoved(x));
    } else {
      PartTotals(day);
      SumWithout(SoldShares, Sells(day), k);
    }
  }

  /** Beside a purchase that costs something, no other one has any effect. */
  lemma OnlyOneMoves(s: real, c: real, sold: real, b: real, k: real, b': real, k': real)
    requires 0.0 < sold && s < sold && b >= 0.0 && b' >= 0.0 && k != 0.0
    requires Neutral(s, c, sold, b, k) && Neutral(s, c, sold, b', k') && Neutral(s, c, sold, b + b', k + k')
    ensures b' == 0.0 && k' == 0.0
  {
    var left := s + b - sold;
    ZeroFactor(k, sold);
    assert c != 0.0;
    assert c * (left + b') == c * left + c * b' && (k + k') * sold == k * sold + k' * sold;
    assert c * b' == k' * sold;
    if s + b' > sold {
      assert c * (s + b' - sold) == c * (s - sold) + c * b';
      ZeroFactor(c, s - sold);
    } else {
      ZeroFactor(c, b');
    }
  }

  lemma {:induction false} OnlyTerm(f: Transaction -> real, ts: seq<Transaction>, i: nat)
    requires i < |ts| && forall j :: 0 <= j < |ts| && j != i ==> f(ts[j]) == 0.0
    ensures Sum(f, ts) == f(ts[i])
  {
    SumWithout(f, ts, i);
    SumNil(f, Without(ts, i));
  }

  lemma EachNeutral(m: Metrics, day: seq<Transaction>, t: Transaction)
    requires AllOrdersAgree(m, day) && HasSell(day) && t in day && !t.kind.Sell?
    ensures Neutral(m.shares, m.cost, Sum(SoldShares, day), BoughtShares(t), MoneyMoved(t))
  {
    PartMembers(day);
    var i :| 0 <= i < |Others(day)| && Others(day)[i] == t;
    OneNeutral(m, day, i);
  }

  /** Sales of nothing: they wipe out the cost of shares that are short. */
  lemma NeededWhenShort(m: Metrics, day: seq<Transaction>)
    requires AllOrdersAgree(m, day) && HasSell(day) && Sum(SoldShares, day) == 0.0 && m.shares <= 0.0
    ensures OrderFree(m, day)
  {
    forall t | t in day
      ensures if m.shares + BoughtShares(t) <= 0.0 then MoneyMoved(t) == 0.0 else m.cost == 0.0
    {
      if !t.kind.Sell? {
        EachNeutral(m, day, t);
        ZeroFactor(m.cost, m.shares + BoughtShares(t));
      }
    }
    WholeNeutral(m, day);
    ZeroFactor(m.cost, m.shares + Sum(BoughtShares, day));
  }

  lemma NeededAverage(m: Metrics, day: seq<Transaction>)
    requires AllOrdersAgree(m, day) && HasSell(day) && m.shares >= Sum(SoldShares, day) > 0.0
    ensures AtAverage(m, day)
  {
    forall t | t in day
      ensures AverageTrade(m, t)
    {
      if !t.kind.Sell? {
        EachNeutral(m, day, t);
      }
    }
  }

  lemma NeededFree(m: Metrics, day: seq<Transaction>)
    requires AllOrdersAgree(m, day) && HasSell(day) && MoneyFree(day)
    requires m.shares < Sum(SoldShares, day) && Sum(SoldShares, day) > 0.0
    ensures m.cost == 0.0 || m.shares + Sum(BoughtShares, day) <= Sum(SoldShares, day)
  {
    WholeNeutral(m, day);
    NoMoney(day);
    ZeroFactor(m.cost, m.shares + Sum(BoughtShares, day) - Sum(SoldShares, day));
  }

  lemma OthersStill(m: Metrics, day: seq<Transaction>, i: nat, sold: real)
    requires AllOrdersAgree(m, day) && HasSell(day) && i < |Others(day)| && sold == Sum(SoldShares, day)
    requires m.shares < sold && 0.0 < sold && MoneyMoved(Others(day)[i]) != 0.0
    ensures forall j :: 0 <= j < |Others(day)| && j != i ==>
              BoughtShares(Others(day)[j]) == 0.0 && MoneyMoved(Others(day)[j]) == 0.0
    ensures Sum(BoughtShares, day) == BoughtShares(Others(day)[i])
    ensures Sum(MoneyMoved, day) == MoneyMoved(Others(day)[i])
    ensures Sum(MoneyMoved, day) == Sum(MoneyMoved, Others(day))
  {
    var others := Others(day);
    OneNeutral(m, day, i);
    forall j | 0 <= j < |others| && j != i
      ensures BoughtShares(others[j]) == 0.0 && MoneyMoved(others[j]) == 0.0
    {
      OneNeutral(m, day, j);
      PairNeutral(m, day, i, j);
      OnlyOneMoves(m.shares, m.cost, sold, BoughtShares(others[i]), MoneyMoved(others[i]),
                   BoughtShares(others[j]), MoneyMoved(others[j]));
    }
    OnlyTerm(BoughtShares, others, i);
    OnlyTerm(MoneyMoved, others, i);
    PartTotals(day);
  }

  lemma OfThePair(m: Metrics, day: seq<Transaction>, i: nat, sold: real, t: Transaction)
    requires AllOrdersAgree(m, day) && HasSell(day) && i < |Others(day)| && sold == Sum(SoldShares, day)
    requires m.shares < sold && 0.0 < sold && MoneyMoved(Others(day)[i]) != 0.0 && t in day
    requires Repaid(m, sold, BoughtShares(Others(day)[i]), MoneyMoved(Others(day)[i]))
    ensures OfPair(m, sold, BoughtShares(Others(day)[i]), MoneyMoved(Others(day)[i]), t)
  {
    OthersStill(m, day, i, sold);
    PartMembers(day);
    if t.kind.Sell? {
      var k :| 0 <= k < |Sells(day)| && Sells(day)[k] == t;
      LoneSale(m, day, i, k, sold);
    } else {
      var j :| 0 <= j < |Others(day)| && Others(day)[j] == t;
    }
  }

  lemma NeededPair(m: Metrics, day: seq<Transaction>, i: nat, sold: real, bought: real, money: real)
    requires AllOrdersAgree(m, day) && HasSell(day) && i < |Others(day)| && sold == Sum(SoldShares, day)
    requires bought == BoughtShares(Others(day)[i]) && money == MoneyMoved(Others(day)[i])
    requires m.shares < sold && 0.0 < sold && money != 0.0
    ensures OnePair(m, day)
  {
    OneNeutral(m, day, i);
    assert Repaid(m, sold, bought, money);
    forall t | t in day
      ensures OfPair(m, sold, bought, money, t)
    {
      OfThePair(m, day, i, sold, t);
    }
    OthersStill(m, day, i, sold);
  }

  lemma FreeNeeded(m: Metrics, day: seq<Transaction>)
    requires AllOrdersAgree(m, day)
    ensures OrderFree(m, day)
  {
    var sold := Sum(SoldShares, day);
    TotalsNonNegative(day);
    if HasSell(day) && sold == 0.0 && m.shares <= 0.0 {
      NeededWhenShort(m, day);
    } else if HasSell(day) && sold > 0.0 && m.shares >= sold {
      NeededAverage(m, day);
    } else if HasSell(day) && sold > 0.0 && MoneyFree(day) {
      NeededFree(m, day);
    } else if HasSell(day) && sold > 0.0 {
      var t :| t in day && MoneyMoved(t) != 0.0;
      PartMembers(day);
      var i :| 0 <= i < |Others(day)| && Others(day)[i] == t;
      NeededPair(m, day, i, sold, BoughtShares(t), MoneyMoved(t));
    }
  }
}
