// The market-data pipeline of app.js: the `STATE` object (app.js:101-111), the
// table sort it keeps (app.js:456-510, app.js:597-604), the alert operations run
// against `localStorage` (app.js:921-953, app.js:1285-1296), the snapshot cache
// (app.js:328-361), the refresh (app.js:1150-1188) and the start-up load
// (app.js:1325-1334).
//
// Each operation is given twice: as a function from one `AppState` to the next,
// which the lemmas are about, and as a method of the class `App`, which changes
// the fields in place the way the JavaScript does and is proved to end in the
// state the function gives.
module Pipeline {
  import opened Wrappers
  import opened Text
  import opened Dataset
  import opened Alerts
  import opened Storage

  /** The fields of `STATE` the pipeline reads and writes, and the browser storage. */
  datatype AppState = AppState(
    currency: string,
    coins: seq<Coin>,
    trending: seq<TrendingItem>,
    lastUpdateTs: Option<int>,
    sortKey: string,
    sortDir: string,
    storage: Store)

  /** `STATE` when the script loads: no coins, no update time, sorted by rank ascending. */
  function Initial(currency: string, storage: Store): AppState {
    AppState(currency, [], [], None, "market_cap_rank", "asc", storage)
  }

  // ---------------------------------------------------------------------
  // Sorting and the header click
  // ---------------------------------------------------------------------

  /** The comparator `sortCoinsData` builds from `STATE.sort`. */
  function CurrentOrder(s: AppState): Order {
    Order(KeyFromString(s.sortKey), DirectionFromString(s.sortDir))
  }

  /** `sortCoinsData()`. */
  function SortStep(s: AppState): AppState {
    s.(coins := InsertionSorted(CurrentOrder(s), s.coins))
  }

  /** `headerSortKeys[index] || "rank"`. */
  function HeaderKey(index: nat): string {
    match index
    case 0 => "rank"
    case 1 => "name"
    case 2 => "price"
    case 3 => "p1h"
    case 4 => "p24"
    case 5 => "p7d"
    case 6 => "mcap"
    case 7 => "vol"
    case _ => "rank"
  }

  /** The click handler of column `index`: the same key flips the direction, another
      key starts ascending; then the table is sorted. */
  function ClickStep(s: AppState, index: nat): AppState {
    var key := HeaderKey(index);
    var dir := if s.sortKey == key then (if s.sortDir == "asc" then "desc" else "asc") else "asc";
    SortStep(s.(sortKey := key, sortDir := dir))
  }

  /** Sorting keeps the coins as a permutation, ordered by the current key and stable. */
  lemma SortStepSorts(s: AppState)
    ensures multiset(SortStep(s).coins) == multiset(s.coins)
    ensures Sorted(CurrentOrder(s), SortStep(s).coins)
    ensures forall x :: EqualTo(CurrentOrder(s), SortStep(s).coins, x) == EqualTo(CurrentOrder(s), s.coins, x)
    ensures SortStep(s).(coins := s.coins) == s
  {
    SortPermutes(CurrentOrder(s), s.coins);
    SortOrders(CurrentOrder(s), s.coins);
    forall x ensures EqualTo(CurrentOrder(s), SortStep(s).coins, x) == EqualTo(CurrentOrder(s), s.coins, x) {
      SortIsStable(CurrentOrder(s), s.coins, x);
    }
  }

  /** Clicking the active column flips the direction; clicking another starts ascending;
      either way the table is then ordered by the clicked column's key. */
  lemma ClickTransition(s: AppState, index: nat)
    ensures ClickStep(s, index).sortKey == HeaderKey(index)
    ensures s.sortKey == HeaderKey(index) && s.sortDir == "asc" ==> ClickStep(s, index).sortDir == "desc"
    ensures s.sortKey == HeaderKey(index) && s.sortDir != "asc" ==> ClickStep(s, index).sortDir == "asc"
    ensures s.sortKey != HeaderKey(index) ==> ClickStep(s, index).sortDir == "asc"
    ensures multiset(ClickStep(s, index).coins) == multiset(s.coins)
    ensures Sorted(CurrentOrder(ClickStep(s, index)), ClickStep(s, index).coins)
  {
    SortStepSorts(s.(sortKey := ClickStep(s, index).sortKey, sortDir := ClickStep(s, index).sortDir));
  }

  /** A second click on the same column turns the direction round. */
  lemma ClickTwiceReverses(s: AppState, index: nat)
    ensures ClickStep(ClickStep(s, index), index).sortDir != ClickStep(s, index).sortDir
    ensures ClickStep(ClickStep(s, index), index).sortKey == HeaderKey(index)
  {
  }

  /** The first click on the rank column does not turn the table round: the initial key
      "market_cap_rank" is not the column's "rank", so the direction is reset to the
      ascending it already was, and the order is unchanged. */
  lemma FirstRankClickKeepsOrder(currency: string, storage: Store, coins: seq<Coin>)
    ensures var s := SortStep(Initial(currency, storage).(coins := coins));
            ClickStep(s, 0).sortDir == "asc" && ClickStep(s, 0).coins == s.coins
  {
    var s := SortStep(Initial(currency, storage).(coins := coins));
    assert KeyFromString("rank") == KeyFromString("market_cap_rank");
    SortIdempotent(CurrentOrder(s), coins);
  }

  // ---------------------------------------------------------------------
  // Price alerts against storage
  // ---------------------------------------------------------------------

  /** `createPriceAlert`: the new state, and whether the call threw. */
  function CreateStep(s: AppState, coinName: string, coinSymbol: string, target: real, id: int, created: int): (AppState, bool) {
    match AlertsForUpdate(s.storage)
    case None => (s, true)
    case Some(alerts) => (s.(storage := WriteAlerts(s.storage, alerts + [NewAlert(coinName, coinSymbol, target, id, created)])), false)
  }

  /** `removeAlert`: the new state, and whether the call threw. */
  function RemoveStep(s: AppState, id: int): (AppState, bool) {
    match AlertsForUpdate(s.storage)
    case None => (s, true)
    case Some(alerts) => (s.(storage := WriteAlerts(s.storage, RemoveById(alerts, id))), false)
  }

  /** The Save button of the alert form: nothing happens unless the coin name, its symbol
      and the price text are all non-empty; the price is not checked beyond that. */
  function SubmitStep(s: AppState, coinName: string, coinSymbol: string, priceText: string, target: real, id: int, created: int): (AppState, bool) {
    if coinName != "" && coinSymbol != "" && priceText != "" then CreateStep(s, coinName, coinSymbol, target, id, created)
    else (s, false)
  }

  /** The outcome of `checkPriceAlerts`: the new state, the alerts notified about, whether it threw. */
  datatype Checked = Checked(state: AppState, fired: seq<Alert>, threw: bool)

  /** `checkPriceAlerts`: every fired alert removed by id, the list left alone when none fires. */
  function CheckStep(s: AppState): Checked {
    match AlertsForCheck(s.storage)
    case Throws => Checked(s, [], true)
    case Quiet => Checked(s, [], false)
    case Proceed(alerts) =>
      var fired := Fired(alerts, s.coins);
      if fired == [] then Checked(s, [], false)
      else Checked(s.(storage := WriteAlerts(s.storage, Remaining(alerts, s.coins))), fired, false)
  }

  /** The state part-way through `checkPriceAlerts`, once the alerts in `fired` have been removed. */
  function PartlyChecked(s0: AppState, alerts: seq<Alert>, fired: seq<Alert>): AppState {
    if fired == [] then s0 else s0.(storage := WriteAlerts(s0.storage, RemoveIds(alerts, IdsOf(fired))))
  }

  /** Each `removeAlert` call of the loop reads what the previous one wrote and drops one more id. */
  lemma RemovalStep(s0: AppState, alerts: seq<Alert>, fired: seq<Alert>, a: Alert)
    requires AlertsForUpdate(s0.storage) == Some(alerts)
    ensures RemoveStep(PartlyChecked(s0, alerts, fired), a.id) == (PartlyChecked(s0, alerts, fired + [a]), false)
  {
    var before := RemoveIds(alerts, IdsOf(fired));
    if fired == [] {
      RemoveNoIds(alerts);
      assert IdsOf(fired) == {};
    } else {
      AlertsRoundTrip(s0.storage, before);
    }
    RemoveOneMore(alerts, IdsOf(fired), a.id);
    assert IdsOf(fired + [a]) == IdsOf(fired) + {a.id};
    WriteAlertsTwice(s0.storage, before, RemoveById(before, a.id));
  }

  /** Creating an alert appends exactly one record, with the symbol lower-cased and the price
      as given, keeps the earlier alerts and touches nothing else; when the stored list cannot
      be read the call throws and changes nothing. */
  lemma CreateAppendsOne(s: AppState, coinName: string, coinSymbol: string, target: real, id: int, created: int)
    ensures var (t, threw) := CreateStep(s, coinName, coinSymbol, target, id, created);
      && (threw <==> AlertsForUpdate(s.storage).None?)
      && (threw ==> t == s)
      && (!threw ==> AlertsForUpdate(t.storage) == Some(AlertsForUpdate(s.storage).value + [Alert(id, coinName, ToLower(coinSymbol), target, created)]))
      && ReadSnapshot(t.storage) == ReadSnapshot(s.storage)
      && t.(storage := s.storage) == s
  {
    match AlertsForUpdate(s.storage)
    case None =>
    case Some(alerts) =>
      var a := NewAlert(coinName, coinSymbol, target, id, created);
      AlertsRoundTrip(s.storage, alerts + [a]);
      KeysIndependent(s.storage, alerts + [a], 0, "", [], []);
  }

  /** The form accepts any parsed price, zero and negative ones included. */
  lemma SubmitDoesNotValidatePrice(s: AppState, coinName: string, coinSymbol: string, priceText: string, target: real, id: int, created: int)
    requires coinName != "" && coinSymbol != "" && priceText != ""
    requires AlertsForUpdate(s.storage).Some?
    ensures !SubmitStep(s, coinName, coinSymbol, priceText, target, id, created).1
    ensures AlertsForUpdate(SubmitStep(s, coinName, coinSymbol, priceText, target, id, created).0.storage)
         == Some(AlertsForUpdate(s.storage).value + [Alert(id, coinName, ToLower(coinSymbol), target, created)])
  {
    CreateAppendsOne(s, coinName, coinSymbol, target, id, created);
  }

  /** Removing an alert deletes every alert with that id, keeps the others in order, and
      doing it twice is doing it once. */
  lemma RemoveStepIdempotent(s: AppState, id: int)
    ensures var (t, threw) := RemoveStep(s, id);
      && (threw <==> AlertsForUpdate(s.storage).None?)
      && (!threw ==> AlertsForUpdate(t.storage) == Some(RemoveById(AlertsForUpdate(s.storage).value, id)))
      && RemoveStep(t, id).0 == t
  {
    match AlertsForUpdate(s.storage)
    case None =>
    case Some(alerts) =>
      var t := RemoveStep(s, id).0;
      AlertsRoundTrip(s.storage, RemoveById(alerts, id));
      RemoveByIdIdempotent(alerts, id);
      assert t.storage[AlertsKey := Parsed(JAlertList(RemoveById(alerts, id)))] == t.storage;
  }

  /** A check notifies about exactly the triggered alerts, leaves in storage exactly those
      whose id none of them carries, changes nothing but the alert list, and a second check
      over the same coins notifies about nothing. */
  lemma CheckStepSpec(s: AppState)
    ensures var c := CheckStep(s);
      && (c.threw ==> c.state == s && c.fired == [])
      && (AlertsForCheck(s.storage).Proceed? ==>
            var alerts := AlertsForCheck(s.storage).alerts;
            c.fired == Fired(alerts, s.coins) && AlertsForUpdate(c.state.storage) == Some(Remaining(alerts, s.coins)))
      && c.state.(storage := s.storage) == s
      && ReadSnapshot(c.state.storage) == ReadSnapshot(s.storage)
      && CheckStep(c.state).fired == []
  {
    match AlertsForCheck(s.storage)
    case Throws =>
    case Quiet =>
    case Proceed(alerts) =>
      var fired := Fired(alerts, s.coins);
      CheckReadAgrees(s.storage);
      if fired != [] {
        var rest := Remaining(alerts, s.coins);
        AlertsRoundTrip(s.storage, rest);
        KeysIndependent(s.storage, rest, 0, "", [], []);
        SecondPassFiresNothing(alerts, s.coins);
      } else {
        assert IdsOf(fired) == {};
        RemoveNoIds(alerts);
      }
  }

  // ---------------------------------------------------------------------
  // The snapshot
  // ---------------------------------------------------------------------

  /** `saveDataSnapshot`: `accepted` says whether `setItem` took the text; a refusal is swallowed. */
  function SaveStep(s: AppState, savedAt: int, accepted: bool): AppState {
    if accepted then s.(storage := WriteSnapshot(s.storage, savedAt, s.currency, s.coins, s.trending)) else s
  }

  datatype Loaded = Loaded(state: AppState, ok: bool)

  /** `loadDataSnapshot`: a falsy currency keeps the current one, a missing trending list
      becomes empty and a falsy timestamp becomes `null`. */
  function LoadStep(s: AppState): Loaded {
    match ReadSnapshot(s.storage)
    case None => Loaded(s, false)
    case Some(snap) =>
      Loaded(s.(currency := if snap.currency.Some? && snap.currency.value != "" then snap.currency.value else s.currency,
                coins := snap.coins,
                trending := snap.trending.GetOr([]),
                lastUpdateTs := if snap.timestamp.Some? && snap.timestamp.value != 0 then snap.timestamp else None),
             true)
  }

  /** Saving and then loading succeeds and gives back the coins, the trending list and the
      currency; the update time becomes the moment of saving. */
  lemma SaveLoadRoundTrip(s: AppState, savedAt: int)
    requires savedAt != 0
    ensures var l := LoadStep(SaveStep(s, savedAt, true));
      l.ok && l.state == SaveStep(s, savedAt, true).(lastUpdateTs := Some(savedAt))
  {
    SnapshotRoundTrip(s.storage, savedAt, s.currency, s.coins, s.trending);
  }

  /** Loading fails exactly when there is no acceptable snapshot, and then nothing changes. */
  lemma LoadFailsOpen(s: AppState)
    ensures !LoadStep(s).ok <==> ReadSnapshot(s.storage).None?
    ensures !LoadStep(s).ok ==> LoadStep(s).state == s
    ensures LoadStep(s).state.storage == s.storage && LoadStep(s).state.sortKey == s.sortKey && LoadStep(s).state.sortDir == s.sortDir
  {
  }

  /** A save that storage refuses changes nothing, and a save never touches the alert list. */
  lemma SaveTouchesOnlySnapshot(s: AppState, savedAt: int, accepted: bool)
    ensures !accepted ==> SaveStep(s, savedAt, accepted) == s
    ensures SaveStep(s, savedAt, accepted).(storage := s.storage) == s
    ensures AlertsForUpdate(SaveStep(s, savedAt, accepted).storage) == AlertsForUpdate(s.storage)
    ensures AlertsForCheck(SaveStep(s, savedAt, accepted).storage) == AlertsForCheck(s.storage)
  {
    KeysIndependent(s.storage, [], savedAt, s.currency, s.coins, s.trending);
  }

  // ---------------------------------------------------------------------
  // The refresh and the start-up
  // ---------------------------------------------------------------------

  /** The markets request, as an input: the coins it returned, or a failure. */
  datatype Fetch = Fetched(coins: seq<Coin>) | FetchFailed

  /** What the table shows afterwards: incoming data, the saved data, or the error row. */
  datatype Shown = FreshData | SavedData | LoadError

  datatype Refreshed = Refreshed(state: AppState, shown: Shown, fired: seq<Alert>)

  /** The `catch` of `loadMarketData`: fall back to the snapshot and sort it if one loads. */
  function Fallback(s: AppState): Refreshed {
    var l := LoadStep(s);
    if l.ok then Refreshed(SortStep(l.state), SavedData, []) else Refreshed(s, LoadError, [])
  }

  /** `loadMarketData`: commit the fetched coins, save, sort and check the alerts; a failed
      request, or a check that throws inside the same `try`, falls back to the snapshot. */
  function MarketStep(s: AppState, fetch: Fetch, fetchedAt: int, savedAt: int, accepted: bool): Refreshed {
    match fetch
    case FetchFailed => Fallback(s)
    case Fetched(incoming) =>
      var committed := SortStep(SaveStep(s.(coins := incoming, lastUpdateTs := Some(fetchedAt)), savedAt, accepted));
      var c := CheckStep(committed);
      if c.threw then Fallback(c.state) else Refreshed(c.state, FreshData, c.fired)
  }

  /** A successful refresh shows the fetched coins sorted by the current order, stamps the
      fetch time, leaves the snapshot of the unsorted fetch when storage took it, and
      notifies about the alerts the fetched prices trigger. */
  lemma RefreshCommits(s: AppState, incoming: seq<Coin>, fetchedAt: int, savedAt: int, accepted: bool)
    requires !AlertsForCheck(s.storage).Throws?
    ensures var r := MarketStep(s, Fetched(incoming), fetchedAt, savedAt, accepted);
      && r.shown == FreshData
      && r.state.coins == InsertionSorted(CurrentOrder(s), incoming)
      && r.state.lastUpdateTs == Some(fetchedAt)
      && (accepted ==> ReadSnapshot(r.state.storage) == Some(Snapshot(Some(savedAt), Some(s.currency), incoming, Some(s.trending))))
      && (!accepted ==> ReadSnapshot(r.state.storage) == ReadSnapshot(s.storage))
      && (AlertsForCheck(s.storage).Proceed? ==>
            r.fired == Fired(AlertsForCheck(s.storage).alerts, r.state.coins))
  {
    var t := s.(coins := incoming, lastUpdateTs := Some(fetchedAt));
    SaveTouchesOnlySnapshot(t, savedAt, accepted);
    SnapshotRoundTrip(t.storage, savedAt, t.currency, t.coins, t.trending);
    CheckStepSpec(SortStep(SaveStep(t, savedAt, accepted)));
  }

  /** A failed request never checks the alerts and never writes storage; with no snapshot
      every field keeps its previous value, and with one the table shows its coins sorted. */
  lemma FailedRefreshFallsBack(s: AppState, fetchedAt: int, savedAt: int, accepted: bool)
    ensures var r := MarketStep(s, FetchFailed, fetchedAt, savedAt, accepted);
      && r.fired == []
      && r.state.storage == s.storage
      && (ReadSnapshot(s.storage).None? ==> r.state == s && r.shown == LoadError)
      && (ReadSnapshot(s.storage).Some? ==>
            r.shown == SavedData && r.state.coins == InsertionSorted(CurrentOrder(s), ReadSnapshot(s.storage).value.coins))
  {
  }

  /** An alert list that makes the check throw sends a successful refresh down the failure
      path as well, and no alert is notified about. When storage took the save, the snapshot
      just saved is loaded back: the table claims saved data while the coins are the fetched
      ones, sorted. When storage refused it, an older snapshot replaces the fetched coins,
      or, with none, the error row is shown over the fetched coins, sorted. */
  lemma ThrowingCheckFallsBack(s: AppState, incoming: seq<Coin>, fetchedAt: int, savedAt: int, accepted: bool)
    requires AlertsForCheck(s.storage).Throws?
    ensures var t := s.(coins := incoming, lastUpdateTs := Some(fetchedAt));
      MarketStep(s, Fetched(incoming), fetchedAt, savedAt, accepted) == Fallback(SortStep(SaveStep(t, savedAt, accepted)))
    ensures var r := MarketStep(s, Fetched(incoming), fetchedAt, savedAt, accepted);
      && r.fired == []
      && (accepted ==>
            && r.shown == SavedData
            && r.state.coins == InsertionSorted(CurrentOrder(s), incoming)
            && r.state.lastUpdateTs == (if savedAt != 0 then Some(savedAt) else None))
      && (!accepted && ReadSnapshot(s.storage).Some? ==>
            r.shown == SavedData && r.state.coins == InsertionSorted(CurrentOrder(s), ReadSnapshot(s.storage).value.coins))
      && (!accepted && ReadSnapshot(s.storage).None? ==>
            r.shown == LoadError && r.state.coins == InsertionSorted(CurrentOrder(s), incoming))
  {
    var t := s.(coins := incoming, lastUpdateTs := Some(fetchedAt));
    SaveTouchesOnlySnapshot(t, savedAt, accepted);
    var committed := SortStep(SaveStep(t, savedAt, accepted));
    assert committed.storage == SaveStep(t, savedAt, accepted).storage;
    assert CheckStep(committed).threw;
    if accepted {
      SnapshotRoundTrip(t.storage, savedAt, t.currency, t.coins, t.trending);
      if savedAt != 0 {
        SaveLoadRoundTrip(t, savedAt);
      }
    }
  }

  datatype Started = Started(state: AppState, loaded: bool, fired: seq<Alert>, threw: bool)

  /** The start-up block: load the snapshot and, when it loads, sort and check the alerts.
      When the check throws (`threw`), the rest of the start-up handler does not happen:
      no refresh, no timer, no event listeners. */
  function StartupStep(s: AppState): Started {
    var l := LoadStep(s);
    if !l.ok then Started(s, false, [], false)
    else
      var c := CheckStep(SortStep(l.state));
      Started(c.state, true, c.fired, c.threw)
  }

  /** Without a snapshot the start-up changes nothing and checks no alert; with one, the
      alerts are checked against the saved coins. */
  lemma StartupChecksOnlySavedData(s: AppState)
    ensures var st := StartupStep(s);
      && (ReadSnapshot(s.storage).None? ==> st == Started(s, false, [], false))
      && (ReadSnapshot(s.storage).Some? && AlertsForCheck(s.storage).Proceed? ==>
            st.fired == Fired(AlertsForCheck(s.storage).alerts, InsertionSorted(CurrentOrder(s), ReadSnapshot(s.storage).value.coins)))
  {
    if ReadSnapshot(s.storage).Some? {
      CheckStepSpec(SortStep(LoadStep(s).state));
    }
  }

  /** `rankCoinsByMetric(metric, direction).slice(0, n)` over the current coins, or `None`
      where the ranking throws. */
  function Leaders(s: AppState, metric: string, direction: string, n: nat): Option<seq<Coin>> {
    match Ranked(s.coins, metric, direction)
    case None => None
    case Some(ranked) => Some(Top(ranked, n))
  }

  /** For "p24" and "vol" the leaders are at most `n` of the coins, and none of the coins
      left out ranks strictly ahead of one shown. */
  lemma LeadersAreBest(s: AppState, metric: string, direction: string, n: nat)
    requires MetricGetterOf(metric).Getter?
    ensures Leaders(s, metric, direction, n).Some?
    ensures var o := Order(MetricGetterOf(metric).key, DirectionFromString(direction));
            var ranked := Ranked(s.coins, metric, direction).value;
            var top := Leaders(s, metric, direction, n).value;
      && |top| <= n
      && multiset(top) <= multiset(s.coins)
      && forall i, j :: 0 <= i < |top| <= j < |ranked| ==> Compare(o, ranked[i], ranked[j]) <= 0
  {
    var o := Order(MetricGetterOf(metric).key, DirectionFromString(direction));
    var ranked := Ranked(s.coins, metric, direction).value;
    SortPermutes(o, s.coins);
    SortOrders(o, s.coins);
    var top := Leaders(s, metric, direction, n).value;
    assert ranked == top + ranked[|top|..];
    assert multiset(ranked) == multiset(top) + multiset(ranked[|top|..]);
  }

  // ---------------------------------------------------------------------
  // STATE as an object updated in place
  // ---------------------------------------------------------------------

  class App {
    var currency: string
    var coins: seq<Coin>
    var trending: seq<TrendingItem>
    var lastUpdateTs: Option<int>
    var sortKey: string
    var sortDir: string
    var storage: Store

    function State(): AppState
      reads this
    {
      AppState(currency, coins, trending, lastUpdateTs, sortKey, sortDir, storage)
    }

    constructor (currency0: string, storage0: Store)
      ensures State() == Initial(currency0, storage0)
    {
      currency, coins, trending, lastUpdateTs := currency0, [], [], None;
      sortKey, sortDir, storage := "market_cap_rank", "asc", storage0;
    }

    /** `sortCoinsData`: `STATE.coins.sort(...)` in place. */
    method SortCoinsData()
      modifies this
      ensures State() == SortStep(old(State()))
    {
      var cs := coins;
      var a := new Coin[|cs|](i requires 0 <= i < |cs| => cs[i]);
      assert a[..] == cs;
      SortInPlace(a, Order(KeyFromString(sortKey), DirectionFromString(sortDir)));
      coins := a[..];
    }

    /** The click handler of the column header at `index`. */
    method ClickHeader(index: nat)
      modifies this
      ensures State() == ClickStep(old(State()), index)
    {
      var key := HeaderKey(index);
      if sortKey == key {
        sortDir := if sortDir == "asc" then "desc" else "asc";
      } else {
        sortDir := "asc";
      }
      sortKey := key;
      SortCoinsData();
    }

    /** `createPriceAlert`; `id` and `created` are the two clock readings. */
    method CreatePriceAlert(coinName: string, coinSymbol: string, target: real, id: int, created: int) returns (threw: bool)
      modifies this
      ensures (State(), threw) == CreateStep(old(State()), coinName, coinSymbol, target, id, created)
    {
      var alerts := AlertsForUpdate(storage);
      if alerts.None? {
        return true;
      }
      storage := WriteAlerts(storage, alerts.value + [NewAlert(coinName, coinSymbol, target, id, created)]);
      threw := false;
    }

    /** The Save button of the alert form; `target` is `parseFloat(priceText)`. */
    method SubmitAlertForm(coinName: string, coinSymbol: string, priceText: string, target: real, id: int, created: int) returns (threw: bool)
      modifies this
      ensures (State(), threw) == SubmitStep(old(State()), coinName, coinSymbol, priceText, target, id, created)
    {
      threw := false;
      if coinName != "" && coinSymbol != "" && priceText != "" {
        threw := CreatePriceAlert(coinName, coinSymbol, target, id, created);
      }
    }

    /** `removeAlert`. */
    method RemoveAlert(id: int) returns (threw: bool)
      modifies this
      ensures (State(), threw) == RemoveStep(old(State()), id)
    {
      var alerts := AlertsForUpdate(storage);
      if alerts.None? {
        return true;
      }
      storage := WriteAlerts(storage, RemoveById(alerts.value, id));
      threw := false;
    }

    /** `checkPriceAlerts`: one `removeAlert` call for each alert that fires. */
    method CheckPriceAlerts() returns (fired: seq<Alert>, threw: bool)
      modifies this
      ensures Checked(State(), fired, threw) == CheckStep(old(State()))
    {
      var read := AlertsForCheck(storage);
      if read.Throws? {
        return [], true;
      }
      if read.Quiet? {
        return [], false;
      }
      var alerts := read.alerts;
      CheckReadAgrees(storage);
      ghost var s0 := State();
      fired, threw := [], false;
      var i := 0;
      while i < |alerts|
        invariant 0 <= i <= |alerts|
        invariant fired == Fired(alerts[..i], s0.coins)
        invariant State() == PartlyChecked(s0, alerts, fired)
      {
        var a := alerts[i];
        var coin := FindBySymbol(coins, a.coinSymbol);
        FiredConcat(alerts[..i], [a], s0.coins);
        assert alerts[..i + 1] == alerts[..i] + [a];
        if coin.Some? && Reached(coin.value.currentPrice, a.targetPrice) {
          RemovalStep(s0, alerts, fired, a);
          var t := RemoveAlert(a.id);
          fired := fired + [a];
        }
        i := i + 1;
      }
      assert alerts[..i] == alerts;
    }

    /** `saveDataSnapshot`; `savedAt` is the clock reading, `accepted` whether `setItem` succeeded. */
    method SaveDataSnapshot(savedAt: int, accepted: bool)
      modifies this
      ensures State() == SaveStep(old(State()), savedAt, accepted)
    {
      if accepted {
        storage := WriteSnapshot(storage, savedAt, currency, coins, trending);
      }
    }

    /** `loadDataSnapshot`. */
    method LoadDataSnapshot() returns (ok: bool)
      modifies this
      ensures Loaded(State(), ok) == LoadStep(old(State()))
    {
      var snap := ReadSnapshot(storage);
      if snap.None? {
        return false;
      }
      var v := snap.value;
      if v.currency.Some? && v.currency.value != "" {
        currency := v.currency.value;
      }
      coins := v.coins;
      trending := v.trending.GetOr([]);
      lastUpdateTs := if v.timestamp.Some? && v.timestamp.value != 0 then v.timestamp else None;
      ok := true;
    }

    /** `loadMarketData`, with the request's result and the clock readings as inputs. */
    method LoadMarketData(fetch: Fetch, fetchedAt: int, savedAt: int, accepted: bool) returns (shown: Shown, fired: seq<Alert>)
      modifies this
      ensures Refreshed(State(), shown, fired) == MarketStep(old(State()), fetch, fetchedAt, savedAt, accepted)
    {
      if fetch.Fetched? {
        coins := fetch.coins;
        lastUpdateTs := Some(fetchedAt);
        SaveDataSnapshot(savedAt, accepted);
        SortCoinsData();
        var threw;
        fired, threw := CheckPriceAlerts();
        if !threw {
          return FreshData, fired;
        }
      }
      fired := [];
      var loaded := LoadDataSnapshot();
      if loaded {
        SortCoinsData();
        shown := SavedData;
      } else {
        shown := LoadError;
      }
    }

    /** The start-up block of the `DOMContentLoaded` handler. */
    method Startup() returns (loaded: bool, fired: seq<Alert>, threw: bool)
      modifies this
      ensures Started(State(), loaded, fired, threw) == StartupStep(old(State()))
    {
      fired, threw := [], false;
      loaded := LoadDataSnapshot();
      if loaded {
        SortCoinsData();
        fired, threw := CheckPriceAlerts();
      }
    }

    /** The Top Gainers, Top Losers and Highest Volume lists: a ranked copy, cut to `n`. */
    method RankedLeaders(metric: string, direction: string, n: nat) returns (r: seq<Coin>, threw: bool)
      ensures (if threw then None else Some(r)) == Leaders(State(), metric, direction, n)
    {
      var ranked;
      ranked, threw := RankCoinsByMetric(coins, metric, direction);
      r := if threw then [] else Top(ranked, n);
    }
  }
}
