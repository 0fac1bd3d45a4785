// The guide helpers of shared/functions.js that decide something: the layout
// thresholds of `analyzeContent`, the header guard of `generateTOC`, and the two
// lookups `getDifficultyColor` and `getGuideImageData`.
module Guides {
  import opened Wrappers
  import opened Text

  // ---------------------------------------------------------------------
  // Lines of the content, as a multiline regular expression sees them
  // ---------------------------------------------------------------------

  /** Where a multiline `^` matches: the start, and after every line terminator. */
  predicate LineStart(s: string, i: nat) {
    i == 0 || (0 < i <= |s| && IsLineTerminator(s[i - 1]))
  }

  /** `/^p/gm` matches at `j`. */
  predicate LineBeginsWith(s: string, p: string, j: nat) {
    LineStart(s, j) && OccursAt(s, p, j)
  }

  /** The positions from `i` on where a line begins with `p`, in increasing order. */
  function LinePositions(s: string, p: string, i: nat): (r: seq<nat>)
    requires p != []
    ensures forall j :: j in r <==> i <= j < |s| && LineBeginsWith(s, p, j)
    ensures forall a :: 0 <= a < |r| ==> i <= r[a]
    ensures forall a, b :: 0 <= a < b < |r| ==> r[a] < r[b]
    decreases |s| - i
  {
    if i >= |s| then []
    else if LineBeginsWith(s, p, i) then [i] + LinePositions(s, p, i + 1)
    else LinePositions(s, p, i + 1)
  }

  /** `content.length`: UTF-16 code units, two for a character outside the Basic Multilingual Plane. */
  function Utf16Length(s: string): (n: nat)
    ensures |s| <= n <= 2 * |s|
  {
    if s == [] then 0 else (if s[0] as int >= 0x10000 then 2 else 1) + Utf16Length(s[1..])
  }

  // ---------------------------------------------------------------------
  // analyzeContent
  // ---------------------------------------------------------------------

  datatype Analysis = Analysis(length: nat, listItems: nat, sections: nat,
                               isListHeavy: bool, isLong: bool, needsOptimization: bool)

  const ListThreshold: nat := 15
  const LongThreshold: nat := 6000
  const OptimizeListThreshold: nat := 10
  const OptimizeLengthThreshold: nat := 4000

  /** `analyzeContent(content)`: lines starting "- ", lines starting "## ", and the flags. */
  function AnalyzeContent(content: string): Analysis {
    var listItems := |LinePositions(content, "- ", 0)|;
    var sections := |LinePositions(content, "## ", 0)|;
    var length := Utf16Length(content);
    Analysis(length, listItems, sections,
             listItems > ListThreshold, length > LongThreshold,
             listItems > OptimizeListThreshold || length > OptimizeLengthThreshold)
  }

  /** The counts are the number of lines that begin with "- " and with "## ". */
  lemma AnalyzeCounts(content: string)
    ensures var a := AnalyzeContent(content);
      && a.listItems == |set j | 0 <= j < |content| && LineBeginsWith(content, "- ", j)|
      && a.sections == |set j | 0 <= j < |content| && LineBeginsWith(content, "## ", j)|
  {
    PositionsCount(content, "- ");
    PositionsCount(content, "## ");
  }

  lemma PositionsCount(s: string, p: string)
    requires p != []
    ensures |LinePositions(s, p, 0)| == |set j | 0 <= j < |s| && LineBeginsWith(s, p, j)|
  {
    var r := LinePositions(s, p, 0);
    DistinctCard(r);
    assert (set j | 0 <= j < |s| && LineBeginsWith(s, p, j)) == Elements(r);
  }

  function Elements(r: seq<nat>): set<nat> {
    set x | x in r
  }

  /** A strictly increasing sequence has as many elements as its set. */
  lemma {:induction false} DistinctCard(r: seq<nat>)
    requires forall a, b :: 0 <= a < b < |r| ==> r[a] < r[b]
    ensures |Elements(r)| == |r|
  {
    if r != [] {
      var tail := r[1..];
      DistinctCard(tail);
      forall k | 0 <= k < |tail| ensures tail[k] != r[0] {
        assert tail[k] == r[k + 1];
      }
      assert r[0] !in Elements(tail);
      assert Elements(r) == Elements(tail) + {r[0]};
    } else {
      assert Elements(r) == {};
    }
  }

  /** Either of the multi-column flags implies the collapsing flag: its thresholds are lower. */
  lemma LayoutFlagsNest(content: string)
    ensures var a := AnalyzeContent(content);
      (a.isListHeavy || a.isLong) ==> a.needsOptimization
  {
  }

  /** Each flag holds exactly above its threshold. */
  lemma AnalysisThresholds(content: string)
    ensures var a := AnalyzeContent(content);
      && (a.isListHeavy <==> a.listItems >= 16)
      && (a.isLong <==> a.length >= 6001)
      && (a.needsOptimization <==> a.listItems >= 11 || a.length >= 4001)
      && a.length >= |content|
  {
  }

  // ---------------------------------------------------------------------
  // generateTOC
  // ---------------------------------------------------------------------

  /** `/^## (.+)$/gm` matches at `j`: a line that begins "## " followed by at least one
      character before the end of the line. */
  predicate HeaderAt(s: string, j: nat) {
    LineBeginsWith(s, "## ", j) && j + 3 < |s| && !IsLineTerminator(s[j + 3])
  }

  /** Index of the end of the line that position `i` is on. */
  function LineEnd(s: string, i: nat): (e: nat)
    requires i <= |s|
    ensures i <= e <= |s|
    ensures forall k :: i <= k < e ==> !IsLineTerminator(s[k])
    ensures e < |s| ==> IsLineTerminator(s[e])
    decreases |s| - i
  {
    if i == |s| || IsLineTerminator(s[i]) then i else LineEnd(s, i + 1)
  }

  /** The positions from `i` on where a header line begins, in increasing order. */
  function HeaderPositions(s: string, i: nat): (r: seq<nat>)
    ensures forall j :: j in r <==> i <= j < |s| && HeaderAt(s, j)
    ensures forall a :: 0 <= a < |r| ==> i <= r[a] && r[a] + 3 < |s|
    ensures forall a, b :: 0 <= a < b < |r| ==> r[a] < r[b]
    decreases |s| - i
  {
    if i >= |s| then []
    else if HeaderAt(s, i) then [i] + HeaderPositions(s, i + 1)
    else HeaderPositions(s, i + 1)
  }

  /** `header.replace('## ', '')` of the match at `j`: the rest of its line. */
  function Title(s: string, j: nat): string
    requires j + 3 <= |s|
  {
    s[j + 3..LineEnd(s, j + 3)]
  }

  /** The titles of the headers, in the order they appear. */
  function TocTitles(s: string): seq<string> {
    var hs := HeaderPositions(s, 0);
    seq(|hs|, k requires 0 <= k < |hs| => Title(s, hs[k]))
  }

  /** A title is never empty and stays on its line. */
  lemma TitlesAreLines(s: string)
    ensures forall t :: t in TocTitles(s) ==> t != [] && forall k :: 0 <= k < |t| ==> !IsLineTerminator(t[k])
  {
    var hs := HeaderPositions(s, 0);
    forall t | t in TocTitles(s) ensures t != [] && forall k :: 0 <= k < |t| ==> !IsLineTerminator(t[k]) {
      var a :| 0 <= a < |hs| && TocTitles(s)[a] == t;
      assert HeaderAt(s, hs[a]);
      assert LineEnd(s, hs[a] + 3) > hs[a] + 3;
    }
  }

  datatype Toc = NoToc | TocList(titles: seq<string>)

  /** `generateTOC(content)`: nothing under three headers, the list of titles otherwise. */
  function GenerateToc(content: string): Toc {
    var titles := TocTitles(content);
    if |titles| < 3 then NoToc else TocList(titles)
  }

  /** The table is left out exactly when fewer than three lines are headers with a title;
      otherwise it lists the title of every header, in order. */
  lemma TocGuard(content: string)
    ensures GenerateToc(content).NoToc? <==> |HeaderPositions(content, 0)| < 3
    ensures GenerateToc(content).TocList? ==>
      var hs := HeaderPositions(content, 0);
      |GenerateToc(content).titles| == |hs| >= 3 &&
      forall k :: 0 <= k < |hs| ==> GenerateToc(content).titles[k] == Title(content, hs[k])
  {
  }

  lemma {:induction false} HeadersWithinSections(s: string, i: nat)
    ensures |HeaderPositions(s, i)| <= |LinePositions(s, "## ", i)|
    decreases |s| - i
  {
    if i < |s| {
      HeadersWithinSections(s, i + 1);
    }
  }

  /** Every header line is a section, so the table never has more entries than sections. */
  lemma TocWithinSections(content: string)
    ensures |TocTitles(content)| <= AnalyzeContent(content).sections
  {
    HeadersWithinSections(content, 0);
  }

  lemma {:induction false} NoHeaders(s: string, i: nat)
    requires forall j :: i <= j < |s| ==> !HeaderAt(s, j)
    ensures HeaderPositions(s, i) == []
    decreases |s| - i
  {
    if i < |s| {
      NoHeaders(s, i + 1);
    }
  }

  /** Three "## " lines without titles count as three sections but give no table. */
  lemma UntitledSections(s: string)
    requires s == "## \n## \n## \n"
    ensures AnalyzeContent(s).sections == 3
    ensures GenerateToc(s) == NoToc
  {
    UntitledSectionLines(s);
    PositionsCount(s, "## ");
    UntitledHeaders(s);
    NoHeaders(s, 0);
  }

  lemma UntitledSectionLines(s: string)
    requires s == "## \n## \n## \n"
    ensures (set j | 0 <= j < |s| && LineBeginsWith(s, "## ", j)) == {0, 4, 8}
  {
    assert LineBeginsWith(s, "## ", 0) && LineBeginsWith(s, "## ", 4) && LineBeginsWith(s, "## ", 8);
    forall j | 0 <= j < |s| && LineBeginsWith(s, "## ", j) ensures j == 0 || j == 4 || j == 8 {
      assert s[j] == '#';
    }
  }

  lemma UntitledHeaders(s: string)
    requires s == "## \n## \n## \n"
    ensures forall j :: 0 <= j < |s| ==> !HeaderAt(s, j)
  {
    forall j | 0 <= j < |s| ensures !HeaderAt(s, j) {
      if LineBeginsWith(s, "## ", j) {
        assert s[j] == '#';
        assert j == 0 || j == 4 || j == 8;
        assert s[j + 3] == '\n';
      }
    }
  }

  // ---------------------------------------------------------------------
  // getDifficultyColor
  // ---------------------------------------------------------------------

  /** `switch ((difficulty || '').toLowerCase())`. */
  function DifficultyColor(difficulty: Option<string>): string {
    var d := ToLower(difficulty.GetOr(""));
    if d == "beginner" then "success"
    else if d == "intermediate" then "warning"
    else if d == "advanced" then "danger"
    else "primary"
  }

  /** Each badge color is reached by exactly one level name, in any letter case, and
      everything else, a missing level included, gets "primary". */
  lemma DifficultyColorSpec(difficulty: Option<string>)
    ensures var d := ToLower(difficulty.GetOr(""));
      && (DifficultyColor(difficulty) == "success" <==> d == "beginner")
      && (DifficultyColor(difficulty) == "warning" <==> d == "intermediate")
      && (DifficultyColor(difficulty) == "danger" <==> d == "advanced")
      && (DifficultyColor(difficulty) == "primary" <==> d !in {"beginner", "intermediate", "advanced"})
    ensures difficulty.None? ==> DifficultyColor(difficulty) == "primary"
  {
  }

  /** The letter case of the level does not matter. */
  lemma DifficultyIgnoresCase(level: string)
    ensures DifficultyColor(Some(ToUpper(level))) == DifficultyColor(Some(level))
  {
    ToLowerOfUpper(level);
  }

  // ---------------------------------------------------------------------
  // getGuideImageData
  // ---------------------------------------------------------------------

  datatype Image = Image(src: string, alt: string)

  /** The `imageMap` object literal. */
  const GuideImages: map<string, Image> := map[
      "bitcoin-basics" := Image("shared/img/crypto-07.jpg",
        "Golden Bitcoin coin floating above blue financial chart showing upward price trend and market growth"),
      "ethereum-guide" := Image("shared/img/crypto-14.jpg",
        "Hand holding Bitcoin, Ethereum, and other cryptocurrency coins representing diverse digital asset portfolio"),
      "how-to-buy-crypto" := Image("shared/img/crypto-16.jpg",
        "Two hands exchanging a golden Bitcoin coin representing peer-to-peer cryptocurrency transaction and trading"),
      "crypto-wallet-security" := Image("shared/img/crypto-20.jpg",
        "Golden Bitcoin coin being carefully placed into denim jeans pocket representing secure cryptocurrency storage"),
      "understanding-blockchain" := Image("shared/img/crypto-03.jpg",
        "Golden Bitcoin and Ethereum coins on financial newspaper with geometric pattern background representing blockchain technology"),
      "market-cap-guide" := Image("shared/img/crypto-13.jpg",
        "Smartphone displaying cryptocurrency portfolio and market data with physical gold and silver coins scattered around"),
      "crypto-trading-volume" := Image("shared/img/crypto-17.jpg",
        "Professional trader analyzing multiple cryptocurrency charts and trading data on large computer monitor"),
      "bull-bear-markets" := Image("shared/img/crypto-09.jpg",
        "Person using tablet to analyze cryptocurrency price movements and trading patterns on colorful financial charts"),
      "crypto-regulations" := Image("shared/img/crypto-01.jpg",
        "Golden Bitcoin coins placed on financial investment document with text about cryptocurrencies and investing"),
      "defi-explained" := Image("shared/img/crypto-06.jpg",
        "Modern laptop displaying advanced cryptocurrency trading interface with charts and market data on glass desk"),
      "staking-rewards" := Image("shared/img/crypto-15.jpg",
        "Organized stacks of gold and silver cryptocurrency coins representing staking rewards and passive income"),
      "nft-marketplace" := Image("shared/img/crypto-21.jpg",
        "Hand holding collection of various cryptocurrency coins including Bitcoin and Ethereum representing digital asset ownership"),
      "crypto-tax-guide" := Image("shared/img/crypto-04.jpg",
        "Golden Bitcoin coin next to 200 Euro banknotes representing cryptocurrency taxation and international finance"),
      "altcoin-analysis" := Image("shared/img/crypto-14.jpg",
        "Multiple cryptocurrency coins in open palm including Bitcoin, Ethereum and altcoins representing portfolio analysis"),
      "smart-contracts" := Image("shared/img/crypto-02.jpg",
        "Professional using laptop and smartphone to monitor cryptocurrency trading charts and smart contract interactions"),
      "crypto-mining" := Image("shared/img/crypto-12.jpg",
        "Golden Bitcoin coin partially buried in dark soil representing cryptocurrency mining and digital gold concept"),
      "yield-farming" := Image("shared/img/crypto-18.jpg",
        "Professional trader with glasses intensely analyzing complex cryptocurrency market data and DeFi protocols"),
      "crypto-portfolio" := Image("shared/img/crypto-13.jpg",
        "Digital portfolio tracking interface on smartphone surrounded by physical cryptocurrency coins"),
      "crypto-exchanges" := Image("shared/img/crypto-17.jpg",
        "Professional cryptocurrency trader analyzing market data on multiple monitors in modern trading environment"),
      "cold-storage" := Image("shared/img/crypto-20.jpg",
        "Bitcoin coin being securely stored in denim wallet pocket representing cold storage security practices")
  ]

  /** The image for a guide with no entry of its own. */
  const DefaultImage: Image := Image("shared/img/crypto-08.jpg",
    "Professional person holding Bitcoin coin with focused expression representing cryptocurrency expertise and knowledge")

  /** What `imageMap[guideId]` reads on a plain object: an own entry, an inherited member, or nothing. */
  datatype Lookup = Own(image: Image) | Inherited(member: string)

  /** `imageMap[guideId] || default` as written: an inherited member is a function or object,
      so it is truthy and is returned in place of the default. */
  function ImageLookupAsWritten(guideId: string): Lookup {
    if guideId in GuideImages then Own(GuideImages[guideId])
    else if guideId in PrototypeMembers then Inherited(guideId)
    else Own(DefaultImage)
  }

  /** `getGuideImageData(guideId)` as intended: the entry when the guide has one, the default otherwise. */
  function GuideImageData(guideId: string): Image {
    if guideId in GuideImages then GuideImages[guideId] else DefaultImage
  }

  /** Any id without an entry gets the default image, and the default is no guide's own image. */
  lemma GuideImageDefault(guideId: string)
    ensures guideId !in GuideImages ==> GuideImageData(guideId) == DefaultImage
    ensures guideId in GuideImages ==> GuideImageData(guideId) == GuideImages[guideId] != DefaultImage
  {
  }

  /** The two versions agree on every id that is not an inherited member name. */
  lemma LookupAgrees(guideId: string)
    requires guideId !in PrototypeMembers
    ensures ImageLookupAsWritten(guideId) == Own(GuideImageData(guideId))
  {
  }

  /** A guide whose id is "constructor" (a guide titled "Constructor") gets the `Object`
      function instead of an image, so the page is built with an undefined source. */
  lemma ConstructorIsNotAnImage()
    ensures ImageLookupAsWritten("constructor") == Inherited("constructor")
    ensures GuideImageData("constructor") == DefaultImage
  {
    assert "constructor" !in GuideImages;
  }
}
