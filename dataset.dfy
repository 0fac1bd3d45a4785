// The market table in app.js: the coin records, the comparator of
// `sortCoinsData` (app.js:456-510), the stable sort it hands that comparator
// to, the search filter of `renderCoinsTable` (app.js:516-521) and
// `rankCoinsByMetric` (app.js:679-700).
module Dataset {
  import opened Wrappers
  import opened Text
  import opened Seqs

  /** One record of the markets listing: the fields the pipeline reads.
      A quantity that is `null` in the JSON is `None`; `name` and `symbol` are always
      strings. */
  datatype Coin = Coin(
    id: string,
    symbol: string,
    name: string,
    currentPrice: Option<real>,
    marketCap: Option<real>,
    totalVolume: Option<real>,
    marketCapRank: Option<int>,
    change1h: Option<real>,
    change24h: Option<real>,
    change7d: Option<real>)

  // ---------------------------------------------------------------------
  // Sort keys and directions as the code spells them
  // ---------------------------------------------------------------------

  datatype SortKey = ByName | ByPrice | ByChange1h | ByChange24h | ByChange7d | ByMarketCap | ByVolume | ByRank

  datatype Direction = Ascending | Descending

  datatype Order = Order(key: SortKey, dir: Direction)

  /** The `switch (sortKey)` of the comparator: every other string, including the
      initial "market_cap_rank" and the header's "rank", falls to `market_cap_rank`. */
  function KeyFromString(key: string): (k: SortKey)
    ensures k == ByRank <==> key !in {"name", "price", "p1h", "p24", "p7d", "mcap", "vol"}
  {
    match key
    case "name" => ByName
    case "price" => ByPrice
    case "p1h" => ByChange1h
    case "p24" => ByChange24h
    case "p7d" => ByChange7d
    case "mcap" => ByMarketCap
    case "vol" => ByVolume
    case _ => ByRank
  }

  /** `dir === "asc" ? 1 : -1`: anything but "asc" sorts descending. */
  function DirectionFromString(dir: string): Direction {
    if dir == "asc" then Ascending else Descending
  }

  function Sign(d: Direction): int {
    if d == Ascending then 1 else -1
  }

  /** The numeric field a key reads (`None` for the name key, which is not numeric). */
  function NumericField(key: SortKey, c: Coin): Option<real> {
    match key
    case ByName => None
    case ByPrice => c.currentPrice
    case ByChange1h => c.change1h
    case ByChange24h => c.change24h
    case ByChange7d => c.change7d
    case ByMarketCap => c.marketCap
    case ByVolume => c.totalVolume
    case ByRank => if c.marketCapRank.Some? then Some(c.marketCapRank.value as real) else None
  }

  // ---------------------------------------------------------------------
  // The comparator
  // ---------------------------------------------------------------------

  /** The null-aware numeric comparison: nulls after values whatever the direction. */
  function NullsLastCompare(va: Option<real>, vb: Option<real>, dir: Direction): int {
    if va.None? && vb.None? then 0
    else if va.None? then 1
    else if vb.None? then -1
    else (if va.value > vb.value then 1 else if va.value < vb.value then -1 else 0) * Sign(dir)
  }

  /** The comparator `sortCoinsData` passes to `Array.prototype.sort`. */
  function Compare(o: Order, a: Coin, b: Coin): int {
    if o.key == ByName then
      var x, y := ToLower(a.name), ToLower(b.name);
      if LexLess(x, y) then -1 * Sign(o.dir) else if LexLess(y, x) then 1 * Sign(o.dir) else 0
    else
      NullsLastCompare(NumericField(o.key, a), NumericField(o.key, b), o.dir)
  }

  /** `b <= a` is the reverse of `a <= b`: the comparator is antisymmetric. */
  lemma CompareAntisymmetric(o: Order, a: Coin, b: Coin)
    ensures Compare(o, a, b) == -Compare(o, b, a)
    ensures -1 <= Compare(o, a, b) <= 1
  {
    if o.key == ByName {
      LexTrichotomy(ToLower(a.name), ToLower(b.name));
    }
  }

  lemma CompareTransitive(o: Order, a: Coin, b: Coin, c: Coin)
    requires Compare(o, a, b) <= 0 && Compare(o, b, c) <= 0
    ensures Compare(o, a, c) <= 0
  {
    if o.key == ByName {
      var x, y, z := ToLower(a.name), ToLower(b.name), ToLower(c.name);
      LexTrichotomy(x, y);
      LexTrichotomy(y, z);
      LexTrichotomy(x, z);
      if LexLess(x, y) && LexLess(y, z) { LexTransitive(x, y, z); }
      if LexLess(z, y) && LexLess(y, x) { LexTransitive(z, y, x); }
    }
  }

  lemma CompareStrictTransitive(o: Order, a: Coin, b: Coin, c: Coin)
    requires Compare(o, a, b) < 0 && Compare(o, b, c) <= 0
    ensures Compare(o, a, c) < 0
  {
    CompareAntisymmetric(o, a, c);
    CompareAntisymmetric(o, a, b);
    if Compare(o, a, c) >= 0 {
      CompareTransitive(o, b, c, a);
    }
  }

  lemma CompareReflexive(o: Order, a: Coin)
    ensures Compare(o, a, a) == 0
  {
    CompareAntisymmetric(o, a, a);
  }

  /** A record whose key value is null sorts after one whose value is present, in both directions. */
  lemma NullAfterValue(o: Order, a: Coin, b: Coin)
    requires o.key != ByName
    requires NumericField(o.key, a).None? && NumericField(o.key, b).Some?
    ensures Compare(o, a, b) == 1 && Compare(o, b, a) == -1
  {
  }

  /** Between non-null values (and always for names) the descending comparator is the
      ascending one negated; only the null records keep their place at the end. */
  lemma DirectionFlipsComparison(k: SortKey, a: Coin, b: Coin)
    requires k == ByName || (NumericField(k, a).Some? && NumericField(k, b).Some?)
    ensures Compare(Order(k, Descending), a, b) == -Compare(Order(k, Ascending), a, b)
  {
  }

  // ---------------------------------------------------------------------
  // The stable sort
  // ---------------------------------------------------------------------

  /** Every earlier record compares at most equal to every later one. */
  ghost predicate Sorted(o: Order, s: seq<Coin>) {
    forall i, j :: 0 <= i < j < |s| ==> Compare(o, s[i], s[j]) <= 0
  }

  /** Insert `c` after every record it does not precede strictly. */
  function Insert(o: Order, c: Coin, s: seq<Coin>): seq<Coin> {
    if s == [] then [c]
    else if Compare(o, c, s[0]) < 0 then [c] + s
    else [s[0]] + Insert(o, c, s[1..])
  }

  /** The stable sort of `s` under `o`: records taken left to right, each inserted
      after the records already placed that it does not precede. */
  function InsertionSorted(o: Order, s: seq<Coin>): seq<Coin> {
    if s == [] then [] else Insert(o, s[|s| - 1], InsertionSorted(o, s[..|s| - 1]))
  }

  /** The records of `s` that compare equal to `x`, in their order in `s`. */
  function EqualTo(o: Order, s: seq<Coin>, x: Coin): seq<Coin> {
    if s == [] then []
    else (if Compare(o, s[0], x) == 0 then [s[0]] else []) + EqualTo(o, s[1..], x)
  }

  lemma {:induction false} InsertPermutes(o: Order, c: Coin, s: seq<Coin>)
    ensures multiset(Insert(o, c, s)) == multiset(s) + multiset{c}
  {
    if s != [] && Compare(o, c, s[0]) >= 0 {
      InsertPermutes(o, c, s[1..]);
      assert s == [s[0]] + s[1..];
    }
  }

  lemma {:induction false} InsertKeepsSorted(o: Order, c: Coin, s: seq<Coin>)
    requires Sorted(o, s)
    ensures Sorted(o, Insert(o, c, s))
  {
    if s == [] {
    } else if Compare(o, c, s[0]) < 0 {
      forall j | 0 <= j < |s| ensures Compare(o, c, s[j]) <= 0 {
        if j > 0 { CompareTransitive(o, c, s[0], s[j]); }
      }
    } else {
      var t := Insert(o, c, s[1..]);
      InsertKeepsSorted(o, c, s[1..]);
      InsertPermutes(o, c, s[1..]);
      CompareAntisymmetric(o, c, s[0]);
      forall j | 0 <= j < |t| ensures Compare(o, s[0], t[j]) <= 0 {
        assert t[j] in multiset(t);
        if t[j] != c {
          assert t[j] in multiset(s[1..]);
          var m :| 0 <= m < |s[1..]| && s[1..][m] == t[j];
          assert s[m + 1] == t[j];
        }
      }
    }
  }

  /** The sort returns a permutation of its input. */
  lemma {:induction false} SortPermutes(o: Order, s: seq<Coin>)
    ensures multiset(InsertionSorted(o, s)) == multiset(s)
  {
    if s != [] {
      var init, last := s[..|s| - 1], s[|s| - 1];
      SortPermutes(o, init);
      InsertPermutes(o, last, InsertionSorted(o, init));
      SplitLast(s);
      assert multiset(s) == multiset(init) + multiset{last};
    }
  }

  /** The sort returns an ordered sequence. */
  lemma {:induction false} SortOrders(o: Order, s: seq<Coin>)
    ensures Sorted(o, InsertionSorted(o, s))
  {
    if s != [] {
      SortOrders(o, s[..|s| - 1]);
      InsertKeepsSorted(o, s[|s| - 1], InsertionSorted(o, s[..|s| - 1]));
    }
  }

  lemma {:induction false} EqualToConcat(o: Order, a: seq<Coin>, b: seq<Coin>, x: Coin)
    ensures EqualTo(o, a + b, x) == EqualTo(o, a, x) + EqualTo(o, b, x)
  {
    if a == [] {
      assert a + b == b;
    } else {
      assert (a + b)[1..] == a[1..] + b;
      EqualToConcat(o, a[1..], b, x);
    }
  }

  lemma {:induction false} EqualToNone(o: Order, s: seq<Coin>, x: Coin)
    requires forall j :: 0 <= j < |s| ==> Compare(o, s[j], x) != 0
    ensures EqualTo(o, s, x) == []
  {
    if s != [] {
      EqualToNone(o, s[1..], x);
    }
  }

  lemma {:induction false} InsertEqualTo(o: Order, c: Coin, s: seq<Coin>, x: Coin)
    requires Sorted(o, s)
    ensures EqualTo(o, Insert(o, c, s), x) == EqualTo(o, s, x) + (if Compare(o, c, x) == 0 then [c] else [])
  {
    if s == [] {
    } else if Compare(o, c, s[0]) < 0 {
      if Compare(o, c, x) == 0 {
        // every record of s follows c strictly, so none of them equals x
        forall j | 0 <= j < |s| ensures Compare(o, s[j], x) != 0 {
          if j > 0 { CompareStrictTransitive(o, c, s[0], s[j]); }
          CompareAntisymmetric(o, c, s[j]);
          CompareAntisymmetric(o, c, x);
          if Compare(o, s[j], x) == 0 {
            CompareTransitive(o, s[j], x, c);
          }
        }
        EqualToNone(o, s, x);
      }
      assert [c] + s == [c] + s;
    } else {
      InsertEqualTo(o, c, s[1..], x);
    }
  }

  /** Stability: the records equal to any `x` on the key keep their input order. */
  lemma {:induction false} SortIsStable(o: Order, s: seq<Coin>, x: Coin)
    ensures EqualTo(o, InsertionSorted(o, s), x) == EqualTo(o, s, x)
  {
    if s != [] {
      var init, last := s[..|s| - 1], s[|s| - 1];
      assert InsertionSorted(o, s) == Insert(o, last, InsertionSorted(o, init));
      SortIsStable(o, init, x);
      InsertIntoSorted(o, last, init, x);
      assert s == init + [last];
      EqualToConcat(o, init, [last], x);
      EqualToSingle(o, last, x);
    }
  }

  lemma InsertIntoSorted(o: Order, c: Coin, s: seq<Coin>, x: Coin)
    ensures EqualTo(o, Insert(o, c, InsertionSorted(o, s)), x)
         == EqualTo(o, InsertionSorted(o, s), x) + (if Compare(o, c, x) == 0 then [c] else [])
  {
    SortOrders(o, s);
    InsertEqualTo(o, c, InsertionSorted(o, s), x);
  }

  lemma EqualToSingle(o: Order, c: Coin, x: Coin)
    ensures EqualTo(o, [c], x) == if Compare(o, c, x) == 0 then [c] else []
  {
    assert [c][1..] == [];
  }

  lemma EqualToMember(o: Order, s: seq<Coin>, x: Coin, y: Coin)
    requires y in EqualTo(o, s, x)
    ensures y in s && Compare(o, y, x) == 0
  {
  }

  /** An ordered and stable arrangement is unique: any sort that orders by the
      comparator and keeps equal records in input order returns `InsertionSorted`. */
  lemma {:induction false} OrderedStableIsUnique(o: Order, r1: seq<Coin>, r2: seq<Coin>)
    requires Sorted(o, r1) && Sorted(o, r2)
    requires forall x :: EqualTo(o, r1, x) == EqualTo(o, r2, x)
    ensures r1 == r2
    decreases |r1| + |r2|
  {
    if r1 == [] && r2 == [] { return; }
    if r1 != [] { CompareReflexive(o, r1[0]); assert EqualTo(o, r1, r1[0]) != []; }
    if r2 != [] { CompareReflexive(o, r2[0]); assert EqualTo(o, r2, r2[0]) != []; }
    if r1 == [] || r2 == [] { assert false; }
    HeadsAgree(o, r1, r2);
    TailsAgree(o, r1, r2);
    OrderedStableIsUnique(o, r1[1..], r2[1..]);
    assert r1 == [r1[0]] + r1[1..] && r2 == [r2[0]] + r2[1..];
  }

  /** Two such arrangements start with the same record. */
  lemma HeadsAgree(o: Order, r1: seq<Coin>, r2: seq<Coin>)
    requires Sorted(o, r1) && Sorted(o, r2) && r1 != [] && r2 != []
    requires forall x :: EqualTo(o, r1, x) == EqualTo(o, r2, x)
    ensures r1[0] == r2[0]
  {
    var a, b := r1[0], r2[0];
    CompareReflexive(o, a);
    CompareReflexive(o, b);
    assert b in EqualTo(o, r2, b);
    EqualToMember(o, r1, b, b);
    assert a in EqualTo(o, r1, a);
    EqualToMember(o, r2, a, a);
    var i :| 0 <= i < |r1| && r1[i] == b;
    var j :| 0 <= j < |r2| && r2[j] == a;
    if i > 0 { assert Compare(o, a, b) <= 0; }
    if j > 0 { assert Compare(o, b, a) <= 0; }
    CompareAntisymmetric(o, a, b);
    assert EqualTo(o, r1, a)[0] == a;
    assert EqualTo(o, r2, a)[0] == b;
  }

  /** Taking the common first record off both leaves arrangements with the same equal runs. */
  lemma TailsAgree(o: Order, r1: seq<Coin>, r2: seq<Coin>)
    requires r1 != [] && r2 != [] && r1[0] == r2[0]
    requires forall x :: EqualTo(o, r1, x) == EqualTo(o, r2, x)
    ensures forall x :: EqualTo(o, r1[1..], x) == EqualTo(o, r2[1..], x)
  {
    var a := r1[0];
    forall x ensures EqualTo(o, r1[1..], x) == EqualTo(o, r2[1..], x) {
      var h := if Compare(o, a, x) == 0 then [a] else [];
      assert EqualTo(o, r1, x) == h + EqualTo(o, r1[1..], x);
      assert EqualTo(o, r2, x) == h + EqualTo(o, r2[1..], x);
      assert EqualTo(o, r1[1..], x) == (h + EqualTo(o, r1[1..], x))[|h|..];
      assert EqualTo(o, r2[1..], x) == (h + EqualTo(o, r2[1..], x))[|h|..];
    }
  }

  /** Sorting again by the same order changes nothing. */
  lemma SortIdempotent(o: Order, s: seq<Coin>)
    ensures InsertionSorted(o, InsertionSorted(o, s)) == InsertionSorted(o, s)
  {
    var once := InsertionSorted(o, s);
    SortOrders(o, once);
    SortOrders(o, s);
    forall x ensures EqualTo(o, InsertionSorted(o, once), x) == EqualTo(o, once, x) {
      SortIsStable(o, once, x);
    }
    OrderedStableIsUnique(o, InsertionSorted(o, once), once);
  }

  /** Nulls last: in an ordered sequence, no record with a null key value precedes one with a value. */
  lemma NullsLast(o: Order, s: seq<Coin>, i: int, j: int)
    requires o.key != ByName && Sorted(o, s)
    requires 0 <= i < j < |s| && NumericField(o.key, s[i]).None?
    ensures NumericField(o.key, s[j]).None?
  {
    if NumericField(o.key, s[j]).Some? {
      NullAfterValue(o, s[i], s[j]);
    }
  }

  /** Inserting at index `j` is what `Insert` does when `x` precedes exactly the records from `j` on. */
  lemma {:induction false} InsertAt(o: Order, x: Coin, s: seq<Coin>, j: nat)
    requires j <= |s|
    requires forall k :: j <= k < |s| ==> Compare(o, x, s[k]) < 0
    requires forall k :: 0 <= k < j ==> Compare(o, x, s[k]) >= 0
    ensures Insert(o, x, s) == s[..j] + [x] + s[j..]
  {
    if j == 0 {
      assert s[..0] + [x] + s[0..] == [x] + s;
    } else {
      var t := s[1..];
      forall k | j - 1 <= k < |t| ensures Compare(o, x, t[k]) < 0 {
        assert t[k] == s[k + 1];
      }
      forall k | 0 <= k < j - 1 ensures Compare(o, x, t[k]) >= 0 {
        assert t[k] == s[k + 1];
      }
      InsertAt(o, x, t, j - 1);
      assert Insert(o, x, s) == [s[0]] + Insert(o, x, t);
      ConsSlices(s, j);
      ConsAssoc(s[0], t[..j - 1], x, t[j - 1..]);
    }
  }

  /** In an ordered sequence, a record that does not precede `s[j - 1]` precedes none of `s[..j]`. */
  lemma NotBeforePrefix(o: Order, x: Coin, s: seq<Coin>, j: nat)
    requires Sorted(o, s) && j <= |s|
    requires j > 0 ==> Compare(o, x, s[j - 1]) >= 0
    ensures forall k :: 0 <= k < j ==> Compare(o, x, s[k]) >= 0
  {
    forall k | 0 <= k < j ensures Compare(o, x, s[k]) >= 0 {
      CompareAntisymmetric(o, x, s[j - 1]);
      if k < j - 1 {
        assert Compare(o, s[k], s[j - 1]) <= 0;
        CompareTransitive(o, s[k], s[j - 1], x);
      }
      CompareAntisymmetric(o, s[k], x);
    }
  }

  /** `s` with the element at `i` moved left to index `j`, the ones between shifted right. */
  function Moved<T>(s: seq<T>, i: nat, j: nat): (r: seq<T>)
    requires j <= i < |s|
    ensures |r| == |s|
  {
    s[..j] + [s[i]] + s[j..i] + s[i + 1..]
  }

  /** The moved sequence is the prefix with the element inserted, then the untouched rest. */
  lemma MovedSlices<T>(s: seq<T>, i: nat, j: nat)
    requires j <= i < |s|
    ensures Moved(s, i, j)[..i + 1] == s[..i][..j] + [s[i]] + s[..i][j..]
    ensures Moved(s, i, j)[i + 1..] == s[i + 1..]
  {
    var m, d := Moved(s, i, j), s[..i];
    assert d[..j] == s[..j] && d[j..] == s[j..i];
    assert m == (d[..j] + [s[i]] + d[j..]) + s[i + 1..];
  }

  /** The array part-way through `InsertLast`: the elements from `j` to `i - 1` copied
      one place right, over the element at `i`, which the method holds aside. */
  ghost function Shifting<T>(s: seq<T>, i: nat, j: nat): (r: seq<T>)
    requires j <= i < |s|
    ensures |r| == |s|
  {
    s[..j + 1] + s[j..i] + s[i + 1..]
  }

  lemma ShiftingStart<T>(s: seq<T>, i: nat)
    requires i < |s|
    ensures Shifting(s, i, i) == s
  {
    assert s[..i + 1] + s[i + 1..] == s;
  }

  lemma ShiftingStep<T>(s: seq<T>, i: nat, j: nat)
    requires 0 < j <= i < |s|
    ensures Shifting(s, i, j)[j - 1] == s[j - 1]
    ensures Shifting(s, i, j)[j := s[j - 1]] == Shifting(s, i, j - 1)
  {
    var c, d := Shifting(s, i, j)[j := s[j - 1]], Shifting(s, i, j - 1);
    forall k | 0 <= k < |s| ensures c[k] == d[k] {
      if k < j - 1 {
        assert d[k] == s[k];
      } else if k == j - 1 || k == j {
        assert d[k] == s[j - 1];
      } else if k <= i {
        assert c[k] == s[k - 1] && d[k] == s[k - 1];
      } else {
        assert c[k] == s[k] && d[k] == s[k];
      }
    }
  }

  lemma ShiftingEnd<T>(s: seq<T>, i: nat, j: nat)
    requires j <= i < |s|
    ensures Shifting(s, i, j)[j := s[i]] == Moved(s, i, j)
  {
    var c, m := Shifting(s, i, j)[j := s[i]], Moved(s, i, j);
    forall k | 0 <= k < |s| ensures c[k] == m[k] {
      if k < j {
        assert c[k] == s[k] && m[k] == s[k];
      } else if k == j {
        assert m[k] == s[i];
      } else if k <= i {
        assert c[k] == s[k - 1] && m[k] == s[k - 1];
      } else {
        assert c[k] == s[k] && m[k] == s[k];
      }
    }
  }

  /** One step of the insertion sort `Array.prototype.sort` runs with the comparator
      `cmp`: `a[i]` moves left past the elements before it that it strictly precedes,
      and lands at the returned index `pos`. */
  method InsertLast<T>(a: array<T>, i: nat, cmp: (T, T) -> int) returns (ghost pos: nat)
    requires i < a.Length
    modifies a
    ensures pos <= i
    ensures a[..] == Moved(old(a[..]), i, pos)
    ensures forall k :: pos <= k < i ==> cmp(old(a[i]), old(a[k])) < 0
    ensures pos > 0 ==> cmp(old(a[i]), old(a[pos - 1])) >= 0
  {
    ghost var orig := a[..];
    var x := a[i];
    var j := i;
    ShiftingStart(orig, i);
    while j > 0 && cmp(x, a[j - 1]) < 0
      invariant 0 <= j <= i
      invariant a[..] == Shifting(orig, i, j)
      invariant forall k :: j <= k < i ==> cmp(x, orig[k]) < 0
    {
      ShiftingStep(orig, i, j);
      a[j] := a[j - 1];
      j := j - 1;
    }
    if j > 0 {
      assert a[j - 1] == a[..][j - 1] == orig[j - 1];
    }
    ShiftingEnd(orig, i, j);
    a[j] := x;
    pos := j;
  }

  /** One pass of the outer loop keeps the sorted prefix equal to the spec of the prefix. */
  lemma SortedPrefixGrows(o: Order, orig: seq<Coin>, i: nat, prev: seq<Coin>, cur: seq<Coin>, j: nat)
    requires i < |orig| == |prev|
    requires prev[..i] == InsertionSorted(o, orig[..i]) && prev[i..] == orig[i..]
    requires j <= i
    requires cur == Moved(prev, i, j)
    requires forall k :: j <= k < i ==> Compare(o, prev[i], prev[k]) < 0
    requires j > 0 ==> Compare(o, prev[i], prev[j - 1]) >= 0
    ensures cur[..i + 1] == InsertionSorted(o, orig[..i + 1]) && cur[i + 1..] == orig[i + 1..]
  {
    var done, x := prev[..i], prev[i];
    MovedSlices(prev, i, j);
    SuffixStep(prev, orig, i);
    SortPrefixStep(o, orig, i);
    SortOrders(o, orig[..i]);
    NotBeforePrefix(o, x, done, j);
    forall k | j <= k < |done| ensures Compare(o, x, done[k]) < 0 {
      assert done[k] == prev[k];
    }
    InsertAt(o, x, done, j);
  }

  lemma SuffixStep<T>(a: seq<T>, b: seq<T>, i: nat)
    requires i < |a| == |b| && a[i..] == b[i..]
    ensures a[i] == b[i] && a[i + 1..] == b[i + 1..]
  {
    assert a[i] == a[i..][0] && b[i] == b[i..][0];
    assert a[i + 1..] == a[i..][1..] && b[i + 1..] == b[i..][1..];
  }

  /** The spec of one more record: the next one inserted into the sort of the ones before. */
  lemma SortPrefixStep(o: Order, s: seq<Coin>, i: nat)
    requires i < |s|
    ensures InsertionSorted(o, s[..i + 1]) == Insert(o, s[i], InsertionSorted(o, s[..i]))
  {
    assert s[..i + 1][..i] == s[..i];
  }

  /** The sort `Array.prototype.sort` performs, in place: a stable insertion sort. */
  method SortInPlace(a: array<Coin>, o: Order)
    modifies a
    ensures a[..] == InsertionSorted(o, old(a[..]))
  {
    ghost var orig := a[..];
    var i := 0;
    while i < a.Length
      invariant 0 <= i <= a.Length
      invariant a[..i] == InsertionSorted(o, orig[..i])
      invariant a[i..] == orig[i..]
    {
      ghost var prev := a[..];
      ghost var j := InsertLast(a, i, (x, y) => Compare(o, x, y));
      SortedPrefixGrows(o, orig, i, prev, a[..], j);
      i := i + 1;
    }
    assert orig[..a.Length] == orig;
  }

  // ---------------------------------------------------------------------
  // The search filter of renderCoinsTable
  // ---------------------------------------------------------------------

  /** The query the table filters by: the search box's text trimmed and lower-cased. */
  function SearchQuery(input: string): string {
    ToLower(Trim(input))
  }

  /** A coin is shown when the query is empty or its lower-cased name or symbol contains it. */
  predicate MatchesQuery(c: Coin, q: string) {
    q == [] || Contains(ToLower(c.name), q) || Contains(ToLower(c.symbol), q)
  }

  function KeepMatching(coins: seq<Coin>, q: string): seq<Coin> {
    if coins == [] then []
    else (if MatchesQuery(coins[0], q) then [coins[0]] else []) + KeepMatching(coins[1..], q)
  }

  /** `STATE.coins.filter(...)` for the text in the search box. */
  function FilterCoins(coins: seq<Coin>, input: string): seq<Coin> {
    KeepMatching(coins, SearchQuery(input))
  }

  lemma {:induction false} KeepMatchingAll(coins: seq<Coin>, q: string)
    requires forall c :: c in coins ==> MatchesQuery(c, q)
    ensures KeepMatching(coins, q) == coins
  {
    if coins != [] {
      KeepMatchingAll(coins[1..], q);
      assert coins == [coins[0]] + coins[1..];
    }
  }

  /** An empty (or all-blank) query shows every coin, in order. */
  lemma FilterEmptyQueryShowsAll(coins: seq<Coin>, input: string)
    requires SearchQuery(input) == ""
    ensures FilterCoins(coins, input) == coins
  {
    KeepMatchingAll(coins, "");
  }

  lemma {:induction false} KeepMatchingIsSubsequence(coins: seq<Coin>, q: string)
    ensures IsSubsequence(KeepMatching(coins, q), coins)
  {
    if coins != [] {
      KeepMatchingIsSubsequence(coins[1..], q);
      var r := KeepMatching(coins, q);
      if MatchesQuery(coins[0], q) {
        assert r == [coins[0]] + KeepMatching(coins[1..], q);
        assert r[1..] == KeepMatching(coins[1..], q);
      } else {
        assert r == KeepMatching(coins[1..], q);
      }
    }
  }

  lemma {:induction false} KeepMatchingCounts(coins: seq<Coin>, q: string, c: Coin)
    ensures multiset(KeepMatching(coins, q))[c] == if MatchesQuery(c, q) then multiset(coins)[c] else 0
  {
    if coins != [] {
      KeepMatchingCounts(coins[1..], q, c);
      assert coins == [coins[0]] + coins[1..];
    }
  }

  /** The filter keeps the coins in their order and keeps exactly the matching ones:
      each matching coin as often as it occurs, every other coin never. */
  lemma FilterIsExact(coins: seq<Coin>, input: string)
    ensures IsSubsequence(FilterCoins(coins, input), coins)
    ensures forall c :: multiset(FilterCoins(coins, input))[c]
                     == if MatchesQuery(c, SearchQuery(input)) then multiset(coins)[c] else 0
  {
    KeepMatchingIsSubsequence(coins, SearchQuery(input));
    forall c ensures multiset(FilterCoins(coins, input))[c]
                     == if MatchesQuery(c, SearchQuery(input)) then multiset(coins)[c] else 0 {
      KeepMatchingCounts(coins, SearchQuery(input), c);
    }
  }

  /** The filter ignores the case of the query: "BIT" shows what "bit" shows. */
  lemma FilterIgnoresQueryCase(coins: seq<Coin>, input: string)
    ensures FilterCoins(coins, ToUpper(input)) == FilterCoins(coins, input)
  {
    TrimOfUpper(input);
    ToLowerOfUpper(Trim(input));
  }

  // ---------------------------------------------------------------------
  // rankCoinsByMetric
  // ---------------------------------------------------------------------

  /** What `metricGetters[metric]` finds on the object literal: one of its two getters,
      nothing, or a member every object inherits from `Object.prototype`. */
  datatype MetricGetter = Getter(key: SortKey) | NoGetter | InertMember | ThrowingMember

  /** The inherited members that return a value when called as a getter: `toString`
      gives "[object Undefined]" and `constructor` the coin itself, so each comparison is
      `NaN`, which the sort reads as "equal". */
  const InertMembers: set<string> := {"toString", "constructor"}

  /** The own getters "p24" and "vol"; otherwise what the plain-object lookup finds. Every
      other inherited member throws a `TypeError` once it is called. */
  function MetricGetterOf(metric: string): MetricGetter {
    if metric == "p24" then Getter(ByChange24h)
    else if metric == "vol" then Getter(ByVolume)
    else if metric in InertMembers then InertMember
    else if metric in PrototypeMembers then ThrowingMember
    else NoGetter
  }

  /** The comparator `rankCoinsByMetric` builds: a difference of values, nulls last. */
  function RankComparator(key: SortKey, direction: string, a: Coin, b: Coin): real {
    var va, vb := NumericField(key, a), NumericField(key, b);
    if va.None? && vb.None? then 0.0
    else if va.None? then 1.0
    else if vb.None? then -1.0
    else if direction == "asc" then va.value - vb.value
    else vb.value - va.value
  }

  /** The sort looks only at the comparator's sign, and the ranking comparator's sign
      is the sort comparator's for the same key and direction. */
  lemma RankComparatorAgrees(key: SortKey, direction: string, a: Coin, b: Coin)
    requires key != ByName
    ensures var d := RankComparator(key, direction, a, b);
            var c := Compare(Order(key, DirectionFromString(direction)), a, b);
            (d < 0.0 <==> c < 0) && (d == 0.0 <==> c == 0) && (d > 0.0 <==> c > 0)
  {
  }

  /** `rankCoinsByMetric(metric, direction)` over `coins`: the ranking, or `None` where the
      call throws. The comparator is only called when there are two coins or more. */
  function Ranked(coins: seq<Coin>, metric: string, direction: string): Option<seq<Coin>> {
    match MetricGetterOf(metric)
    case Getter(k) => Some(InsertionSorted(Order(k, DirectionFromString(direction)), coins))
    case ThrowingMember => if |coins| >= 2 then None else Some(coins)
    case _ => Some(coins)
  }

  /** The lookup finds a getter for exactly "p24" and "vol", and a throwing member for
      exactly the inherited names other than `toString` and `constructor`. */
  lemma MetricGetterCases(metric: string)
    ensures MetricGetterOf(metric).Getter? <==> metric == "p24" || metric == "vol"
    ensures MetricGetterOf(metric).ThrowingMember? <==> metric in PrototypeMembers && metric !in InertMembers
  {
    assert "p24" !in PrototypeMembers && "vol" !in PrototypeMembers;
  }

  /** The ranking throws exactly on an inherited member other than `toString` and `constructor`
      with two coins or more. Otherwise it is a permutation of the coins: sorted by the
      metric's field when the metric is "p24" or "vol", and the coins unchanged for any other
      metric. */
  lemma RankedSpec(coins: seq<Coin>, metric: string, direction: string)
    ensures Ranked(coins, metric, direction).None? <==>
      metric in PrototypeMembers && metric !in InertMembers && |coins| >= 2
    ensures Ranked(coins, metric, direction).Some? ==>
      multiset(Ranked(coins, metric, direction).value) == multiset(coins)
    ensures metric == "p24" ==>
      Sorted(Order(ByChange24h, DirectionFromString(direction)), Ranked(coins, metric, direction).value)
    ensures metric == "vol" ==>
      Sorted(Order(ByVolume, DirectionFromString(direction)), Ranked(coins, metric, direction).value)
    ensures metric != "p24" && metric != "vol" && Ranked(coins, metric, direction).Some? ==>
      Ranked(coins, metric, direction).value == coins
  {
    MetricGetterCases(metric);
    var g := MetricGetterOf(metric);
    if g.Getter? {
      var o := Order(g.key, DirectionFromString(direction));
      SortPermutes(o, coins);
      SortOrders(o, coins);
    }
  }

  /** A metric named after an inherited method such as "valueOf" throws on two coins. */
  lemma InheritedMetricThrows(a: Coin, b: Coin, direction: string)
    ensures Ranked([a, b], "valueOf", direction) == None
    ensures Ranked([a, b], "toString", direction) == Some([a, b])
  {
  }

  /** `rankCoinsByMetric`: sorts a copy (`slice()`) of the list in place; `threw` says the
      call threw. */
  method RankCoinsByMetric(coins: seq<Coin>, metric: string, direction: string) returns (r: seq<Coin>, threw: bool)
    ensures (if threw then None else Some(r)) == Ranked(coins, metric, direction)
    ensures MetricGetterOf(metric).Getter? ==>
      !threw && multiset(r) == multiset(coins) && Sorted(Order(MetricGetterOf(metric).key, DirectionFromString(direction)), r)
  {
    var copy := new Coin[|coins|](i requires 0 <= i < |coins| => coins[i]);
    assert copy[..] == coins;
    var getter := MetricGetterOf(metric);
    if !getter.Getter? {
      if getter.ThrowingMember? && copy.Length >= 2 {
        return [], true;
      }
      return copy[..], false;
    }
    var o := Order(getter.key, DirectionFromString(direction));
    SortInPlace(copy, o);
    r, threw := copy[..], false;
    SortPermutes(o, coins);
    SortOrders(o, coins);
  }

  /** `list.slice(0, n)`. */
  function Top(s: seq<Coin>, n: nat): (r: seq<Coin>)
    ensures |r| <= n && |r| <= |s|
    ensures r == s[..|r|]
    ensures |s| >= n ==> |r| == n
  {
    if |s| <= n then s else s[..n]
  }
}
