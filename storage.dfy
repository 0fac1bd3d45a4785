// `localStorage` as the pipeline of app.js uses it: a map from key to the value
// stored there, with the two keys of the model, "ac_snapshot" (app.js:328-361)
// and "ac_alerts" (app.js:921-953). `JSON.stringify` and `JSON.parse` are
// abstracted away: a key holds the value a later `JSON.parse` returns, or a mark
// that the text there is empty or does not parse.
module Storage {
  import opened Wrappers
  import opened Dataset
  import opened Alerts

  /** One entry of the trending list kept beside the coins. */
  datatype TrendingItem = TrendingItem(id: string, name: string, symbol: string, marketCapRank: Option<int>)

  /** The JavaScript value a key parses to, by the cases the code tells apart:
      `null`; a number or boolean; a string; an array (as alerts); an object with the
      snapshot's fields as the code saved them, `None` for a field that is missing. */
  datatype Json =
    | JNull
    | JScalar
    | JText(text: string)
    | JAlertList(alerts: seq<Alert>)
    | JRecord(timestamp: Option<int>, currency: Option<string>, coins: Option<seq<Coin>>, trending: Option<seq<TrendingItem>>)

  /** What `getItem` finds under a key that is present. */
  datatype Stored = EmptyText | Unparsable | Parsed(json: Json)

  type Store = map<string, Stored>

  const SnapshotKey: string := "ac_snapshot"
  const AlertsKey: string := "ac_alerts"

  // ---------------------------------------------------------------------
  // The alert list
  // ---------------------------------------------------------------------

  /** `JSON.parse(localStorage.getItem("ac_alerts") || "[]")` followed by `push` or
      `filter`: the alerts, or `None` where one of those throws. */
  function AlertsForUpdate(st: Store): Option<seq<Alert>> {
    if AlertsKey !in st then Some([])
    else match st[AlertsKey]
      case EmptyText => Some([])
      case Unparsable => None
      case Parsed(JAlertList(l)) => Some(l)
      case Parsed(_) => None
  }

  /** How `checkPriceAlerts` gets past its first two lines. */
  datatype CheckRead = Throws | Quiet | Proceed(alerts: seq<Alert>)

  /** `JSON.parse(... || "[]")`, then `if (!alerts.length) return;`, then `alerts.forEach`:
      `null` has no length and a non-empty string no `forEach`, so both throw; a number,
      boolean, object or empty text or list returns quietly. */
  function AlertsForCheck(st: Store): CheckRead {
    if AlertsKey !in st then Quiet
    else match st[AlertsKey]
      case EmptyText => Quiet
      case Unparsable => Throws
      case Parsed(JNull) => Throws
      case Parsed(JScalar) => Quiet
      case Parsed(JText(t)) => if t == "" then Quiet else Throws
      case Parsed(JAlertList(l)) => if l == [] then Quiet else Proceed(l)
      case Parsed(JRecord(_, _, _, _)) => Quiet
  }

  /** `localStorage.setItem("ac_alerts", JSON.stringify(alerts))`. */
  function WriteAlerts(st: Store, alerts: seq<Alert>): Store {
    st[AlertsKey := Parsed(JAlertList(alerts))]
  }

  /** What was written is what the next reader gets, whichever reader it is. */
  lemma AlertsRoundTrip(st: Store, alerts: seq<Alert>)
    ensures AlertsForUpdate(WriteAlerts(st, alerts)) == Some(alerts)
    ensures AlertsForCheck(WriteAlerts(st, alerts)) == if alerts == [] then Quiet else Proceed(alerts)
  {
  }

  /** A write replaces what the previous write left. */
  lemma WriteAlertsTwice(st: Store, first: seq<Alert>, second: seq<Alert>)
    ensures WriteAlerts(WriteAlerts(st, first), second) == WriteAlerts(st, second)
  {
  }

  /** Whatever makes `checkPriceAlerts` go on to its loop also lets `removeAlert` read the same list. */
  lemma CheckReadAgrees(st: Store)
    ensures AlertsForCheck(st).Proceed? ==> AlertsForUpdate(st) == Some(AlertsForCheck(st).alerts)
  {
  }

  // ---------------------------------------------------------------------
  // The snapshot
  // ---------------------------------------------------------------------

  /** A snapshot that `loadDataSnapshot` accepts: its `coins` field is an array. */
  datatype Snapshot = Snapshot(timestamp: Option<int>, currency: Option<string>, coins: seq<Coin>, trending: Option<seq<TrendingItem>>)

  /** `getItem("ac_snapshot")`, `if (!raw) return false`, `JSON.parse` (a throw is caught),
      then `if (!snapshot || !Array.isArray(snapshot.coins)) return false`. */
  function ReadSnapshot(st: Store): Option<Snapshot> {
    if SnapshotKey !in st then None
    else match st[SnapshotKey]
      case Parsed(JRecord(ts, cur, Some(coins), tr)) => Some(Snapshot(ts, cur, coins, tr))
      case _ => None
  }

  /** `setItem("ac_snapshot", JSON.stringify({timestamp, currency, coins, trending}))`. */
  function WriteSnapshot(st: Store, savedAt: int, currency: string, coins: seq<Coin>, trending: seq<TrendingItem>): Store {
    st[SnapshotKey := Parsed(JRecord(Some(savedAt), Some(currency), Some(coins), Some(trending)))]
  }

  /** A written snapshot is read back with every field it was written with. */
  lemma SnapshotRoundTrip(st: Store, savedAt: int, currency: string, coins: seq<Coin>, trending: seq<TrendingItem>)
    ensures ReadSnapshot(WriteSnapshot(st, savedAt, currency, coins, trending))
         == Some(Snapshot(Some(savedAt), Some(currency), coins, Some(trending)))
  {
  }

  /** The snapshot is accepted exactly when the key holds text that parses to an object
      whose `coins` is an array: a missing or empty key, text that does not parse, and
      any other value are refused. */
  lemma SnapshotAccepted(st: Store)
    ensures ReadSnapshot(st).Some? <==>
      SnapshotKey in st && st[SnapshotKey].Parsed? && st[SnapshotKey].json.JRecord? && st[SnapshotKey].json.coins.Some?
  {
  }

  /** The two keys do not interfere: writing one leaves what the other reads. */
  lemma KeysIndependent(st: Store, alerts: seq<Alert>, savedAt: int, currency: string, coins: seq<Coin>, trending: seq<TrendingItem>)
    ensures ReadSnapshot(WriteAlerts(st, alerts)) == ReadSnapshot(st)
    ensures AlertsForUpdate(WriteSnapshot(st, savedAt, currency, coins, trending)) == AlertsForUpdate(st)
    ensures AlertsForCheck(WriteSnapshot(st, savedAt, currency, coins, trending)) == AlertsForCheck(st)
  {
  }
}
