// The price alerts of app.js as values: the record `createPriceAlert` builds
// (app.js:921-932), the trigger test of `checkPriceAlerts` (app.js:936-947) and
// the delete-by-id filter of `removeAlert` (app.js:949-953). The storage they
// are kept in and the loop that applies them are in storage.dfy and pipeline.dfy.
module Alerts {
  import opened Wrappers
  import opened Text
  import opened Seqs
  import opened Dataset

  /** One stored alert. `id` and `created` are the two `Date.now()` readings. */
  datatype Alert = Alert(id: int, coinName: string, coinSymbol: string, targetPrice: real, created: int)

  /** The record `createPriceAlert` appends: the name as given, the symbol lower-cased,
      the target price as parsed, with no check that it is positive. */
  function NewAlert(coinName: string, coinSymbol: string, targetPrice: real, id: int, created: int): Alert {
    Alert(id, coinName, ToLower(coinSymbol), targetPrice, created)
  }

  // ---------------------------------------------------------------------
  // The trigger test
  // ---------------------------------------------------------------------

  /** Index of the first coin from `from` on whose lower-cased symbol is `symbol`
      (`|coins|` when none is): the coin `STATE.coins.find(...)` returns. */
  function FirstWithSymbol(coins: seq<Coin>, symbol: string, from: nat): (k: nat)
    requires from <= |coins|
    decreases |coins| - from
    ensures from <= k <= |coins|
    ensures k < |coins| ==> ToLower(coins[k].symbol) == symbol
    ensures forall j :: from <= j < k ==> ToLower(coins[j].symbol) != symbol
  {
    if from == |coins| then from
    else if ToLower(coins[from].symbol) == symbol then from
    else FirstWithSymbol(coins, symbol, from + 1)
  }

  function FindBySymbol(coins: seq<Coin>, symbol: string): Option<Coin> {
    var k := FirstWithSymbol(coins, symbol, 0);
    if k < |coins| then Some(coins[k]) else None
  }

  /** `coin.current_price >= alert.targetPrice`: a `null` price is compared as 0. */
  predicate Reached(price: Option<real>, target: real) {
    price.GetOr(0.0) >= target
  }

  /** The alert fires when a coin with its symbol is listed and that coin's price has reached the target. */
  predicate Triggers(a: Alert, coins: seq<Coin>) {
    var found := FindBySymbol(coins, a.coinSymbol);
    found.Some? && Reached(found.value.currentPrice, a.targetPrice)
  }

  /** The alerts that fire, in list order: the ones `checkPriceAlerts` notifies about. */
  function Fired(alerts: seq<Alert>, coins: seq<Coin>): seq<Alert> {
    if alerts == [] then []
    else (if Triggers(alerts[0], coins) then [alerts[0]] else []) + Fired(alerts[1..], coins)
  }

  /** The ids of a list of alerts. */
  function IdsOf(alerts: seq<Alert>): set<int> {
    set a | a in alerts :: a.id
  }

  // ---------------------------------------------------------------------
  // Deletion
  // ---------------------------------------------------------------------

  /** `alerts.filter(alert => alert.id !== alertId)`. */
  function RemoveById(alerts: seq<Alert>, id: int): seq<Alert> {
    if alerts == [] then []
    else (if alerts[0].id != id then [alerts[0]] else []) + RemoveById(alerts[1..], id)
  }

  /** The alerts whose id is not in `ids`, in order: what repeated deletion leaves. */
  function RemoveIds(alerts: seq<Alert>, ids: set<int>): seq<Alert> {
    if alerts == [] then []
    else (if alerts[0].id !in ids then [alerts[0]] else []) + RemoveIds(alerts[1..], ids)
  }

  /** `removeAlert` keeps the other alerts in their order and drops every alert with the id,
      however many share it. */
  lemma RemoveByIdIsExact(alerts: seq<Alert>, id: int)
    ensures IsSubsequence(RemoveById(alerts, id), alerts)
    ensures forall a :: multiset(RemoveById(alerts, id))[a] == if a.id == id then 0 else multiset(alerts)[a]
  {
    RemoveByIdInOrder(alerts, id);
    RemoveByIdCounts(alerts, id);
  }

  lemma {:induction false} RemoveByIdInOrder(alerts: seq<Alert>, id: int)
    ensures IsSubsequence(RemoveById(alerts, id), alerts)
  {
    if alerts != [] {
      RemoveByIdInOrder(alerts[1..], id);
      var r, rt := RemoveById(alerts, id), RemoveById(alerts[1..], id);
      if alerts[0].id != id {
        assert r == [alerts[0]] + rt;
        assert r[0] == alerts[0] && r[1..] == rt;
      } else {
        assert r == rt;
      }
    }
  }

  lemma {:induction false} RemoveByIdCounts(alerts: seq<Alert>, id: int)
    ensures forall a :: multiset(RemoveById(alerts, id))[a] == if a.id == id then 0 else multiset(alerts)[a]
  {
    if alerts != [] {
      var h, t := alerts[0], alerts[1..];
      RemoveByIdCounts(t, id);
      var r, rt := RemoveById(alerts, id), RemoveById(t, id);
      assert alerts == [h] + t;
      assert multiset(alerts) == multiset{h} + multiset(t);
      if h.id != id {
        assert r == [h] + rt;
        assert multiset(r) == multiset{h} + multiset(rt);
      } else {
        assert r == rt;
      }
    }
  }

  /** Deleting an id that no alert carries changes nothing. */
  lemma {:induction false} RemoveAbsentId(alerts: seq<Alert>, id: int)
    requires forall a :: a in alerts ==> a.id != id
    ensures RemoveById(alerts, id) == alerts
  {
    if alerts != [] {
      RemoveAbsentId(alerts[1..], id);
      assert alerts == [alerts[0]] + alerts[1..];
    }
  }

  /** What `removeAlert` leaves carries no alert with the id. */
  lemma {:induction false} RemoveByIdClears(alerts: seq<Alert>, id: int)
    ensures forall a :: a in RemoveById(alerts, id) ==> a.id != id
  {
    if alerts != [] {
      RemoveByIdClears(alerts[1..], id);
    }
  }

  /** `removeAlert` is idempotent. */
  lemma RemoveByIdIdempotent(alerts: seq<Alert>, id: int)
    ensures RemoveById(RemoveById(alerts, id), id) == RemoveById(alerts, id)
  {
    RemoveByIdClears(alerts, id);
    RemoveAbsentId(RemoveById(alerts, id), id);
  }

  /** Deleting no id keeps the list. */
  lemma {:induction false} RemoveNoIds(alerts: seq<Alert>)
    ensures RemoveIds(alerts, {}) == alerts
  {
    if alerts != [] {
      RemoveNoIds(alerts[1..]);
      assert alerts == [alerts[0]] + alerts[1..];
    }
  }

  /** Deleting the ids one `removeAlert` at a time is deleting the set of them. */
  lemma {:induction false} RemoveOneMore(alerts: seq<Alert>, ids: set<int>, id: int)
    ensures RemoveById(RemoveIds(alerts, ids), id) == RemoveIds(alerts, ids + {id})
  {
    if alerts != [] {
      RemoveOneMore(alerts[1..], ids, id);
      var h := if alerts[0].id !in ids then [alerts[0]] else [];
      assert RemoveIds(alerts, ids) == h + RemoveIds(alerts[1..], ids);
      RemoveByIdConcat(h, RemoveIds(alerts[1..], ids), id);
    }
  }

  lemma {:induction false} RemoveByIdConcat(a: seq<Alert>, b: seq<Alert>, id: int)
    ensures RemoveById(a + b, id) == RemoveById(a, id) + RemoveById(b, id)
  {
    if a == [] {
      assert a + b == b;
    } else {
      var x := if a[0].id != id then [a[0]] else [];
      AppendTail(a, b);
      RemoveByIdConcat(a[1..], b, id);
      assert RemoveById(a + b, id) == x + RemoveById(a[1..] + b, id);
      ConsAppend(x, RemoveById(a[1..], id), RemoveById(b, id));
    }
  }

  /** An alert survives the deletion of `ids` exactly when its id is not among them. */
  lemma {:induction false} RemoveIdsMembers(alerts: seq<Alert>, ids: set<int>)
    ensures forall a :: a in RemoveIds(alerts, ids) <==> a in alerts && a.id !in ids
  {
    if alerts != [] {
      RemoveIdsMembers(alerts[1..], ids);
      assert alerts == [alerts[0]] + alerts[1..];
    }
  }

  // ---------------------------------------------------------------------
  // One pass of checkPriceAlerts, as values
  // ---------------------------------------------------------------------

  lemma {:induction false} FiredConcat(a: seq<Alert>, b: seq<Alert>, coins: seq<Coin>)
    ensures Fired(a + b, coins) == Fired(a, coins) + Fired(b, coins)
  {
    if a == [] {
      assert a + b == b;
    } else {
      var x := if Triggers(a[0], coins) then [a[0]] else [];
      AppendTail(a, b);
      FiredConcat(a[1..], b, coins);
      assert Fired(a + b, coins) == x + Fired(a[1..] + b, coins);
      ConsAppend(x, Fired(a[1..], coins), Fired(b, coins));
    }
  }

  /** The fired alerts are exactly the listed alerts that trigger. */
  lemma {:induction false} FiredMembers(alerts: seq<Alert>, coins: seq<Coin>)
    ensures forall a :: a in Fired(alerts, coins) <==> a in alerts && Triggers(a, coins)
  {
    if alerts != [] {
      FiredMembers(alerts[1..], coins);
      assert alerts == [alerts[0]] + alerts[1..];
    }
  }

  /** The alerts a pass leaves behind: every alert sharing an id with a fired one is gone. */
  function Remaining(alerts: seq<Alert>, coins: seq<Coin>): seq<Alert> {
    RemoveIds(alerts, IdsOf(Fired(alerts, coins)))
  }

  /** After a pass, no fired alert is left, and an alert none of whose id-sharers
      fired is kept. */
  lemma FiredAreRemoved(alerts: seq<Alert>, coins: seq<Coin>)
    ensures forall a :: a in Fired(alerts, coins) ==> a !in Remaining(alerts, coins)
    ensures forall a :: a in alerts && (forall b :: b in alerts && b.id == a.id ==> !Triggers(b, coins))
                    ==> a in Remaining(alerts, coins)
  {
    FiredMembers(alerts, coins);
    RemoveIdsMembers(alerts, IdsOf(Fired(alerts, coins)));
  }

  /** A second pass over the same coins fires nothing. */
  lemma SecondPassFiresNothing(alerts: seq<Alert>, coins: seq<Coin>)
    ensures Fired(Remaining(alerts, coins), coins) == []
  {
    var rest := Remaining(alerts, coins);
    FiredMembers(alerts, coins);
    RemoveIdsMembers(alerts, IdsOf(Fired(alerts, coins)));
    forall a | a in rest ensures !Triggers(a, coins) {
      assert Triggers(a, coins) ==> a.id in IdsOf(Fired(alerts, coins));
    }
    FiredNone(rest, coins);
  }

  lemma {:induction false} FiredNone(alerts: seq<Alert>, coins: seq<Coin>)
    requires forall a :: a in alerts ==> !Triggers(a, coins)
    ensures Fired(alerts, coins) == []
  {
    if alerts != [] {
      FiredNone(alerts[1..], coins);
    }
  }

  /** A listed coin whose price is `null` sets off every alert for it whose target is at most 0. */
  lemma NullPriceCountsAsZero(a: Alert, coins: seq<Coin>, k: nat)
    requires k < |coins| && ToLower(coins[k].symbol) == a.coinSymbol && coins[k].currentPrice.None?
    requires forall j :: 0 <= j < k ==> ToLower(coins[j].symbol) != a.coinSymbol
    ensures Triggers(a, coins) <==> a.targetPrice <= 0.0
  {
    assert FirstWithSymbol(coins, a.coinSymbol, 0) == k;
  }

  /** An alert set through `createPriceAlert` is found by any listing of the coin, whatever
      the case of either symbol, since both sides are lower-cased. */
  lemma NewAlertMatchesAnyCase(coinName: string, coinSymbol: string, target: real, id: int, created: int, c: Coin)
    requires ToLower(c.symbol) == ToLower(coinSymbol)
    ensures FindBySymbol([c], NewAlert(coinName, coinSymbol, target, id, created).coinSymbol) == Some(c)
  {
  }

  /** An alert on "BTC" at 65000 fires when Bitcoin is listed at 65000, and only that alert. */
  lemma AlertAtTargetFires()
    ensures var btc := Coin("bitcoin", "btc", "Bitcoin", Some(65000.0), None, None, Some(1), None, None, None);
            var eth := Coin("ethereum", "eth", "Ethereum", Some(3000.0), None, None, Some(2), None, None, None);
            var onBtc := NewAlert("Bitcoin", "BTC", 65000.0, 1, 1);
            var onEth := NewAlert("Ethereum", "ETH", 3500.0, 2, 2);
            Fired([onBtc, onEth], [btc, eth]) == [onBtc]
            && Remaining([onBtc, onEth], [btc, eth]) == [onEth]
  {
    var btc := Coin("bitcoin", "btc", "Bitcoin", Some(65000.0), None, None, Some(1), None, None, None);
    var eth := Coin("ethereum", "eth", "Ethereum", Some(3000.0), None, None, Some(2), None, None, None);
    var onBtc := NewAlert("Bitcoin", "BTC", 65000.0, 1, 1);
    var onEth := NewAlert("Ethereum", "ETH", 3500.0, 2, 2);
    assert ToLower("BTC") == "btc";
    assert ToLower("ETH") == "eth";
    assert FirstWithSymbol([btc, eth], "btc", 0) == 0;
    assert FirstWithSymbol([btc, eth], "eth", 0) == 1;
    assert Triggers(onBtc, [btc, eth]) && !Triggers(onEth, [btc, eth]);
    assert [onBtc, onEth][1..] == [onEth];
    assert Fired([onEth], [btc, eth]) == [];
    assert Fired([onBtc, onEth], [btc, eth]) == [onBtc];
    assert IdsOf([onBtc]) == {1};
  }
}
