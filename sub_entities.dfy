/**
  The lookup tables of SubEntities.kt: anti-feature keys, screenshot
  identifiers, donation links, the fixed attributes of each product
  request, and the category-to-icon map. Preference values and the
  `FILTER_CATEGORY_ALL` constant are parameters.
*/
module SubEntities {
  import opened Wrappers
  import opened Text

  /** The vector icons the tables refer to. */
  datatype Icon =
    | CirclesFour | Microphone | PlayCircle | Robot | Graph | Chat | Calendar | Code | Brain
    | ShieldStar | Asterisk | RssSimple | Pizza | GameController | PaintBrush | Globe | Plus
    | CurrencyDollarSimple | Compass | GlobeSimple | Books | Leaf | Phone | BookBookmark
    | Command | Key | Barbell | Nut | Swatches | Clock | Wrench | PenNib
    | CurrencyBTC | IcDonateLitecoin | IcDonateFlattr | IcDonateLiberapay | IcDonateOpencollective

  // ----- Anti-features -----

  datatype AntiFeature =
    | Ads | Debuggable | DisabledAlgorithm | KnownVuln | NoSourceSince | NonFreeAdd
    | NonFreeAssets | NonFreeDep | NonFreeNet | Tracking | NonFreeUpstream | Nsfw
  {
    /** The key the repository index uses for the anti-feature; every key starts with a capital letter. */
    function Key(): (k: string)
      ensures k != [] && 'A' <= k[0] <= 'Z'
    {
      match this
      case Ads => "Ads"
      case Debuggable => "ApplicationDebuggable"
      case DisabledAlgorithm => "DisabledAlgorithm"
      case KnownVuln => "KnownVuln"
      case NoSourceSince => "NoSourceSince"
      case NonFreeAdd => "NonFreeAdd"
      case NonFreeAssets => "NonFreeAssets"
      case NonFreeDep => "NonFreeDep"
      case NonFreeNet => "NonFreeNet"
      case Tracking => "Tracking"
      case NonFreeUpstream => "UpstreamNonFree"
      case Nsfw => "NSFW"
    }
  }

  /** `AntiFeature.values()`, in declaration order. */
  const AntiFeatures: seq<AntiFeature> :=
    [Ads, Debuggable, DisabledAlgorithm, KnownVuln, NoSourceSince, NonFreeAdd,
     NonFreeAssets, NonFreeDep, NonFreeNet, Tracking, NonFreeUpstream, Nsfw]

  /** `find { it.key == key }`: the first entry whose key equals `key`, compared exactly. */
  function FindByKey(entries: seq<AntiFeature>, key: string): (r: Option<AntiFeature>)
    ensures r.None? <==> forall i :: 0 <= i < |entries| ==> entries[i].Key() != key
    ensures r.Some? ==> exists i :: 0 <= i < |entries| && entries[i] == r.value && r.value.Key() == key
                                    && forall j :: 0 <= j < i ==> entries[j].Key() != key
  {
    if entries == [] then None
    else if entries[0].Key() == key then Some(entries[0])
    else
      var r := FindByKey(entries[1..], key);
      assert forall j :: 1 <= j < |entries| ==> entries[j] == entries[1..][j - 1];
      assert r.Some? ==> exists i :: 0 <= i < |entries| && entries[i] == r.value && r.value.Key() == key
                                     && forall j :: 0 <= j < i ==> entries[j].Key() != key by {
        if r.Some? {
          var k :| 0 <= k < |entries[1..]| && entries[1..][k] == r.value && r.value.Key() == key
                   && forall j :: 0 <= j < k ==> entries[1..][j].Key() != key;
          assert entries[k + 1] == r.value;
        }
      }
      r
  }

  /** `String.toAntiFeature`: the anti-feature with exactly this key, or none when no anti-feature has it. */
  function ToAntiFeature(key: string): (r: Option<AntiFeature>)
    ensures r.Some? ==> r.value.Key() == key
    ensures r.None? <==> forall e: AntiFeature :: e.Key() != key
  {
    var r := FindByKey(AntiFeatures, key);
    if r.None? then NoListedKey(key); r else r
  }

  /** A key no listed anti-feature has is no anti-feature's key, since every one is listed. */
  lemma NoListedKey(key: string)
    requires forall i :: 0 <= i < |AntiFeatures| ==> AntiFeatures[i].Key() != key
    ensures forall e: AntiFeature :: e.Key() != key
  {
    forall e: AntiFeature ensures e.Key() != key {
      AntiFeatureKeysDistinct();
      assert e in AntiFeatures;
      var i :| 0 <= i < |AntiFeatures| && AntiFeatures[i] == e;
    }
  }

  /** Every anti-feature is listed, and no two have the same key. */
  lemma AntiFeatureKeysDistinct()
    ensures forall e: AntiFeature :: e in AntiFeatures
    ensures forall i, j :: 0 <= i < j < |AntiFeatures| ==> AntiFeatures[i].Key() != AntiFeatures[j].Key()
  {
    forall e: AntiFeature ensures e in AntiFeatures {
      match e
      case Ads => assert AntiFeatures[0] == e;
      case Debuggable => assert AntiFeatures[1] == e;
      case DisabledAlgorithm => assert AntiFeatures[2] == e;
      case KnownVuln => assert AntiFeatures[3] == e;
      case NoSourceSince => assert AntiFeatures[4] == e;
      case NonFreeAdd => assert AntiFeatures[5] == e;
      case NonFreeAssets => assert AntiFeatures[6] == e;
      case NonFreeDep => assert AntiFeatures[7] == e;
      case NonFreeNet => assert AntiFeatures[8] == e;
      case Tracking => assert AntiFeatures[9] == e;
      case NonFreeUpstream => assert AntiFeatures[10] == e;
      case Nsfw => assert AntiFeatures[11] == e;
    }
  }

  /** Looking up an anti-feature's own key gives back that anti-feature. */
  lemma ToAntiFeatureOfKey(e: AntiFeature)
    ensures ToAntiFeature(e.Key()) == Some(e)
  {
    AntiFeatureKeysDistinct();
    assert e in AntiFeatures;
    var i :| 0 <= i < |AntiFeatures| && AntiFeatures[i] == e;
    var r := ToAntiFeature(e.Key());
    var k :| 0 <= k < |AntiFeatures| && AntiFeatures[k] == r.value && r.value.Key() == e.Key()
             && forall j :: 0 <= j < k ==> AntiFeatures[j].Key() != e.Key();
    assert k == i;
  }

  /** A key that is nobody's key, including a differently-cased one, gives `null`. */
  lemma ToAntiFeatureUnknown(key: string)
    requires forall e: AntiFeature :: e.Key() != key
    ensures ToAntiFeature(key).None?
  {
  }

  /** The match is case-sensitive. */
  lemma ToAntiFeatureCaseSensitive()
    ensures ToAntiFeature("ads").None? && ToAntiFeature("nsfw").None?
  {
    forall e: AntiFeature ensures e.Key() != "ads" && e.Key() != "nsfw" {
      assert e.Key()[0] != 'a' || |e.Key()| != 3;
    }
    ToAntiFeatureUnknown("ads");
    ToAntiFeatureUnknown("nsfw");
  }

  // ----- Screenshots -----

  /** `Screenshot.Type`, with the enum constant's name and its JSON name. */
  datatype ScreenshotType = PhoneScreen | SmallTablet | LargeTablet {
    /** The enum constant's name: never empty, free of dots, and read back by `ScreenshotTypeOfName`. */
    function Name(): (n: string)
      ensures n != [] && '.' !in n
      ensures ScreenshotTypeOfName(n) == Some(this)
    {
      match this
      case PhoneScreen => "PHONE"
      case SmallTablet => "SMALL_TABLET"
      case LargeTablet => "LARGE_TABLET"
    }

    /** The JSON name: never empty, and starting with a lower-case letter. */
    function JsonName(): (j: string)
      ensures j != [] && 'a' <= j[0] <= 'z'
    {
      match this
      case PhoneScreen => "phone"
      case SmallTablet => "smallTablet"
      case LargeTablet => "largeTablet"
    }
  }

  /** Distinct types have distinct JSON names. */
  lemma JsonNamesDistinct(t1: ScreenshotType, t2: ScreenshotType)
    ensures t1.JsonName() == t2.JsonName() <==> t1 == t2
  {
  }

  datatype Screenshot = Screenshot(locale: string, screenshotType: ScreenshotType, path: string) {
    /** `identifier`: the locale, the type's name and the path, joined by dots. */
    function Identifier(): (id: string)
      ensures |id| == |locale| + |screenshotType.Name()| + |path| + 2
      ensures id[..|locale|] == locale && id[|locale|] == '.'
      ensures id[|locale| + 1..|locale| + 1 + |screenshotType.Name()|] == screenshotType.Name()
      ensures id[|id| - |path| - 1] == '.' && id[|id| - |path|..] == path
    {
      locale + "." + screenshotType.Name() + "." + path
    }
  }

  /** The index of the first occurrence of `c` in `s`. */
  function IndexOf(s: string, c: char): (r: Option<nat>)
    ensures r.None? <==> c !in s
    ensures r.Some? ==> r.value < |s| && s[r.value] == c && c !in s[..r.value]
  {
    if s == [] then None
    else if s[0] == c then Some(0)
    else
      var r := IndexOf(s[1..], c);
      if r.Some? then
        assert s[..r.value + 1] == [s[0]] + s[1..][..r.value];
        Some(r.value + 1)
      else None
  }

  function ScreenshotTypeOfName(name: string): Option<ScreenshotType> {
    if name == "PHONE" then Some(PhoneScreen)
    else if name == "SMALL_TABLET" then Some(SmallTablet)
    else if name == "LARGE_TABLET" then Some(LargeTablet)
    else None
  }

  /** Reads an identifier back: the locale up to the first dot, the type's name up to the next, the path after it. */
  function ParseIdentifier(identifier: string): Option<Screenshot> {
    match IndexOf(identifier, '.')
    case None => None
    case Some(i) =>
      var rest := identifier[i + 1..];
      match IndexOf(rest, '.')
      case None => None
      case Some(j) =>
        match ScreenshotTypeOfName(rest[..j])
        case None => None
        case Some(t) => Some(Screenshot(identifier[..i], t, rest[j + 1..]))
  }

  /** In `a + "." + b` where `a` has no dot, the first dot is the one after `a`. */
  lemma IndexOfFirstDot(a: string, b: string)
    requires '.' !in a
    ensures IndexOf(a + "." + b, '.') == Some(|a|)
    ensures (a + "." + b)[..|a|] == a && (a + "." + b)[|a| + 1..] == b
  {
    var s := a + "." + b;
    assert s[|a|] == '.';
    assert forall k :: 0 <= k < |a| ==> s[k] == a[k];
    assert forall m :: |a| < m <= |s| ==> s[..m][|a|] == '.';
  }

  lemma ScreenshotTypeOfItsName(t: ScreenshotType)
    ensures ScreenshotTypeOfName(t.Name()) == Some(t)
    ensures '.' !in t.Name()
  {
  }

  /** A screenshot whose locale has no dot is determined by its identifier. */
  lemma ParseIdentifierOfIdentifier(s: Screenshot)
    requires '.' !in s.locale
    ensures ParseIdentifier(s.Identifier()) == Some(s)
  {
    var name := s.screenshotType.Name();
    var rest := name + "." + s.path;
    var id := s.Identifier();
    assert id == s.locale + "." + rest;
    IndexOfFirstDot(s.locale, rest);
    ScreenshotTypeOfItsName(s.screenshotType);
    IndexOfFirstDot(name, s.path);
    assert IndexOf(id, '.') == Some(|s.locale|);
    assert id[|s.locale| + 1..] == rest && id[..|s.locale|] == s.locale;
    assert IndexOf(rest, '.') == Some(|name|);
    assert rest[..|name|] == name && rest[|name| + 1..] == s.path;
  }

  /** Without that condition two screenshots can share an identifier. */
  lemma IdentifierCollision()
    ensures Screenshot("en.PHONE", PhoneScreen, "a.png").Identifier() == Screenshot("en", PhoneScreen, "PHONE.a.png").Identifier()
  {
  }

  // ----- Donations -----

  datatype Donate =
    | Regular(url: string)
    | Bitcoin(address: string)
    | Litecoin(address: string)
    | Flattr(id: string)
    | Liberapay(id: string)
    | OpenCollective(id: string)

  /** A title is literal text, except the website entry, which is the localised `R.string.website`. */
  datatype LinkTitle = WebsiteResource | Literal(text: string)

  const BitcoinScheme: string := "bitcoin:"
  const LitecoinScheme: string := "litecoin:"
  const FlattrPrefix: string := "https://flattr.com/thing/"
  const LiberapayPrefix: string := "https://liberapay.com/~"
  const OpenCollectivePrefix: string := "https://opencollective.com/"

  /** The `DonateType` link: the text `Uri.parse` is given. */
  function DonateLink(donate: Donate): (link: string)
    ensures donate.Regular? ==> link == donate.url
    ensures donate.Bitcoin? || donate.Litecoin? ==> link == (if donate.Bitcoin? then BitcoinScheme else LitecoinScheme) + donate.address
    ensures donate.Flattr? || donate.Liberapay? || donate.OpenCollective? ==>
              link == (if donate.Flattr? then FlattrPrefix else if donate.Liberapay? then LiberapayPrefix else OpenCollectivePrefix) + donate.id
  {
    match donate
    case Regular(url) => url
    case Bitcoin(address) => BitcoinScheme + address
    case Litecoin(address) => LitecoinScheme + address
    case Flattr(id) => FlattrPrefix + id
    case Liberapay(id) => LiberapayPrefix + id
    case OpenCollective(id) => OpenCollectivePrefix + id
  }

  /** Whether two donations are of the same kind, whatever their addresses or ids. */
  predicate SameKind(d1: Donate, d2: Donate) {
    || (d1.Regular? && d2.Regular?)
    || (d1.Bitcoin? && d2.Bitcoin?)
    || (d1.Litecoin? && d2.Litecoin?)
    || (d1.Flattr? && d2.Flattr?)
    || (d1.Liberapay? && d2.Liberapay?)
    || (d1.OpenCollective? && d2.OpenCollective?)
  }

  /** The `DonateType` title: the website resource for a website link, the service's name for the others. */
  function DonateTitle(donate: Donate): (t: LinkTitle)
    ensures t == WebsiteResource <==> donate.Regular?
    ensures donate.Bitcoin? ==> t == Literal("Bitcoin")
    ensures donate.Litecoin? ==> t == Literal("Litecoin")
    ensures donate.Flattr? ==> t == Literal("Flattr")
    ensures donate.Liberapay? ==> t == Literal("Liberapay")
    ensures donate.OpenCollective? ==> t == Literal("Open Collective")
  {
    match donate
    case Regular(_) => WebsiteResource
    case Bitcoin(_) => Literal("Bitcoin")
    case Litecoin(_) => Literal("Litecoin")
    case Flattr(_) => Literal("Flattr")
    case Liberapay(_) => Literal("Liberapay")
    case OpenCollective(_) => Literal("Open Collective")
  }

  /** The `DonateType` icon, one per kind of donation. */
  function DonateIcon(donate: Donate): (icon: Icon)
    ensures donate.Regular? ==> icon == CurrencyDollarSimple
    ensures donate.Bitcoin? ==> icon == CurrencyBTC
    ensures donate.Litecoin? ==> icon == IcDonateLitecoin
    ensures donate.Flattr? ==> icon == IcDonateFlattr
    ensures donate.Liberapay? ==> icon == IcDonateLiberapay
    ensures donate.OpenCollective? ==> icon == IcDonateOpencollective
  {
    match donate
    case Regular(_) => CurrencyDollarSimple
    case Bitcoin(_) => CurrencyBTC
    case Litecoin(_) => IcDonateLitecoin
    case Flattr(_) => IcDonateFlattr
    case Liberapay(_) => IcDonateLiberapay
    case OpenCollective(_) => IcDonateOpencollective
  }

  /** Two donations share a title exactly when they are of the same kind. */
  lemma DonateTitlesDistinct(d1: Donate, d2: Donate)
    ensures DonateTitle(d1) == DonateTitle(d2) <==> SameKind(d1, d2)
  {
  }

  /** Two donations share an icon exactly when they are of the same kind. */
  lemma DonateIconsDistinct(d1: Donate, d2: Donate)
    ensures DonateIcon(d1) == DonateIcon(d2) <==> SameKind(d1, d2)
  {
  }

  /** Reads a link back into the donation it was made from, by its prefix; other links are website links. */
  function DonateOfLink(link: string): Donate {
    if BitcoinScheme <= link then Bitcoin(link[|BitcoinScheme|..])
    else if LitecoinScheme <= link then Litecoin(link[|LitecoinScheme|..])
    else if FlattrPrefix <= link then Flattr(link[|FlattrPrefix|..])
    else if LiberapayPrefix <= link then Liberapay(link[|LiberapayPrefix|..])
    else if OpenCollectivePrefix <= link then OpenCollective(link[|OpenCollectivePrefix|..])
    else Regular(link)
  }

  /** Every donation but a website link is recovered from its link, and its title is literal text. */
  lemma DonateOfDonateLink(donate: Donate)
    requires !donate.Regular?
    ensures DonateOfLink(DonateLink(donate)) == donate
    ensures DonateTitle(donate).Literal?
  {
    var link := DonateLink(donate);
    match donate
    case Bitcoin(a) =>
      assert link[|BitcoinScheme|..] == a;
    case Litecoin(a) =>
      assert link[..|BitcoinScheme|] != BitcoinScheme by { assert link[0] == 'l'; }
      assert link[|LitecoinScheme|..] == a;
    case Flattr(id) =>
      assert link[0] == 'h' && link[8] == 'f';
      assert link[|FlattrPrefix|..] == id;
    case Liberapay(id) =>
      assert link[0] == 'h' && link[8] == 'l';
      assert link[|LiberapayPrefix|..] == id;
    case OpenCollective(id) =>
      assert link[0] == 'h' && link[8] == 'o';
      assert link[|OpenCollectivePrefix|..] == id;
  }

  /** Hence two donations other than website links with the same link are the same donation. */
  lemma DonateLinkInjective(d1: Donate, d2: Donate)
    requires !d1.Regular? && !d2.Regular?
    requires DonateLink(d1) == DonateLink(d2)
    ensures d1 == d2
  {
    DonateOfDonateLink(d1);
    DonateOfDonateLink(d2);
  }

  /** A website link can carry the same link as a Bitcoin donation. */
  lemma RegularLinkOverlaps()
    ensures DonateLink(Regular("bitcoin:1A")) == DonateLink(Bitcoin("1A"))
  {
  }

  // ----- Requests -----

  /** The ordering of the product list; orders other than the two the requests name are kept by name. */
  datatype Order = Name | DateAdded | OtherOrder(name: string)

  datatype UpdateCategory = All | Updated | New

  /** The filters a page stores in the preferences: sort order, excluded repositories, category, anti-features and licenses. */
  datatype PageFilters = PageFilters(
    order: Order, filteredOutRepos: set<string>, category: string,
    filteredAntiFeatures: set<string>, filteredLicenses: set<string>, ascending: bool)

  /** The preference values the requests read: the filters of four pages and the two item counts. */
  datatype RequestPreferences = RequestPreferences(
    explore: PageFilters, search: PageFilters, installed: PageFilters, latest: PageFilters,
    updatedApps: int, newApps: int)

  /** `Request`; the section is left abstract. */
  datatype Request<S> =
    | ProductsAll(section: S)
    | ProductsSearch(section: S)
    | ProductsInstalled(section: S)
    | ProductsUpdates(section: S)
    | ProductsUpdated(section: S)
    | ProductsNew(section: S)

  /** The values of a request's getters. */
  datatype RequestAttributes = RequestAttributes(
    id: int, installed: bool, updates: bool, updateCategory: UpdateCategory,
    filters: PageFilters, numberOfItems: int)

  /** The empty filter set with the given order, category and direction. */
  function FixedFilters(order: Order, filterCategoryAll: string, ascending: bool): PageFilters {
    PageFilters(order, {}, filterCategoryAll, {}, {}, ascending)
  }

  function Attributes<S>(request: Request<S>, prefs: RequestPreferences, filterCategoryAll: string): (a: RequestAttributes)
    ensures a.installed <==> request.ProductsInstalled? || request.ProductsUpdates?
    ensures a.updates <==> request.ProductsUpdates?
    ensures a.updateCategory == (if request.ProductsUpdated? then Updated else if request.ProductsNew? then New else All)
    ensures a.numberOfItems == (if request.ProductsUpdated? then prefs.updatedApps else if request.ProductsNew? then prefs.newApps else 0)
    ensures 1 <= a.id <= 5
    ensures a.id == match request
                    case ProductsAll(_) => 1
                    case ProductsSearch(_) => 1
                    case ProductsInstalled(_) => 2
                    case ProductsUpdates(_) => 3
                    case ProductsUpdated(_) => 4
                    case ProductsNew(_) => 5
  {
    match request
    case ProductsAll(_) => RequestAttributes(1, false, false, All, prefs.explore, 0)
    case ProductsSearch(_) => RequestAttributes(1, false, false, All, prefs.search, 0)
    case ProductsInstalled(_) => RequestAttributes(2, true, false, All, prefs.installed, 0)
    case ProductsUpdates(_) => RequestAttributes(3, true, true, All, FixedFilters(Name, filterCategoryAll, true), 0)
    case ProductsUpdated(_) => RequestAttributes(4, false, false, Updated, prefs.latest, prefs.updatedApps)
    case ProductsNew(_) => RequestAttributes(5, false, false, New, FixedFilters(DateAdded, filterCategoryAll, false), prefs.newApps)
  }

  /** Two requests have the same id iff they are the same kind of request, or one lists all products and the other searches. */
  lemma RequestIds<S>(r1: Request<S>, r2: Request<S>, p1: RequestPreferences, p2: RequestPreferences, all: string)
    ensures Attributes(r1, p1, all).id == Attributes(r2, p2, all).id
            <==> || ((r1.ProductsAll? || r1.ProductsSearch?) && (r2.ProductsAll? || r2.ProductsSearch?))
                 || (r1.ProductsInstalled? && r2.ProductsInstalled?)
                 || (r1.ProductsUpdates? && r2.ProductsUpdates?)
                 || (r1.ProductsUpdated? && r2.ProductsUpdated?)
                 || (r1.ProductsNew? && r2.ProductsNew?)
  {
  }

  /** The updates and new-apps requests use fixed filters, whatever the preferences say. */
  lemma FixedRequests<S>(section: S, prefs: RequestPreferences, all: string)
    ensures Attributes(ProductsUpdates(section), prefs, all).filters == PageFilters(Name, {}, all, {}, {}, true)
    ensures Attributes(ProductsNew(section), prefs, all).filters == PageFilters(DateAdded, {}, all, {}, {}, false)
  {
  }

  /** The other requests take their filters from their own page's preferences; the updated-apps list uses the latest page's. */
  lemma PreferenceRequests<S>(section: S, prefs: RequestPreferences, all: string)
    ensures Attributes(ProductsAll(section), prefs, all).filters == prefs.explore
    ensures Attributes(ProductsSearch(section), prefs, all).filters == prefs.search
    ensures Attributes(ProductsInstalled(section), prefs, all).filters == prefs.installed
    ensures Attributes(ProductsUpdated(section), prefs, all).filters == prefs.latest
  {
  }

  // ----- Category icons -----

  /** The named categories of `appCategoryIcon`, by lower-case name. */
  const CategoryIcons: map<string, Icon> := map[
    "audio" := Microphone, "audiovideo" := PlayCircle, "automation" := Robot,
    "connectivity" := Graph, "communication" := Chat, "calendar" := Calendar,
    "development" := Code, "education" := Brain, "fedilab" := ShieldStar,
    "fdroid" := Asterisk, "feed" := RssSimple, "food" := Pizza,
    "game" := GameController, "games" := GameController, "graphics" := PaintBrush,
    "guardian project" := ShieldStar, "internet" := Globe, "kde" := Code,
    "kidsgame" := GameController, "math" := Plus, "messaging" := Chat,
    "money" := CurrencyDollarSimple, "multimedia" := PlayCircle, "navigation" := Compass,
    "network" := GlobeSimple, "office" := Books, "offline" := Leaf,
    "osmand" := Compass, "phone & sms" := Phone, "productivity" := Compass,
    "qt" := Books, "reading" := BookBookmark, "recorder" := Microphone,
    "religion" := Command, "science" := Brain, "science & education" := Brain,
    "security" := Key, "sports & health" := Barbell, "system" := Nut,
    "theming" := Swatches, "time" := Clock, "utility" := Wrench,
    "writing" := PenNib, "xposed" := ShieldStar]

  /**
    `appCategoryIcon`: the category is lower-cased, compared with the
    lower-cased `FILTER_CATEGORY_ALL` first and then with the named
    categories; anything else gets the asterisk.
  */
  function AppCategoryIcon(category: string, filterCategoryAll: string): (icon: Icon)
    ensures Lowercase(category) == Lowercase(filterCategoryAll) ==> icon == CirclesFour
    ensures Lowercase(category) != Lowercase(filterCategoryAll) && Lowercase(category) !in CategoryIcons ==> icon == Asterisk
  {
    var name := Lowercase(category);
    if name == Lowercase(filterCategoryAll) then CirclesFour
    else if name in CategoryIcons then CategoryIcons[name]
    else Asterisk
  }

  lemma LowerOfUpper(s: string)
    ensures Lowercase(Uppercase(s)) == Lowercase(s)
  {
    assert forall i :: 0 <= i < |s| ==> LowerChar(UpperChar(s[i])) == LowerChar(s[i]);
  }

  /** Spelling a category in capitals, or in any mix of cases, does not change its icon. */
  lemma AppCategoryIconCaseInsensitive(a: string, b: string, filterCategoryAll: string)
    requires Lowercase(a) == Lowercase(b)
    ensures AppCategoryIcon(a, filterCategoryAll) == AppCategoryIcon(b, filterCategoryAll)
    ensures AppCategoryIcon(Uppercase(a), filterCategoryAll) == AppCategoryIcon(a, filterCategoryAll)
  {
    LowerOfUpper(a);
  }

  /** The three game categories share the game-controller icon, unless one of them is the all-categories name. */
  lemma GameCategories(category: string, filterCategoryAll: string)
    requires Lowercase(category) in {"game", "games", "kidsgame"}
    requires Lowercase(filterCategoryAll) != Lowercase(category)
    ensures AppCategoryIcon(category, filterCategoryAll) == GameController
  {
    GameEntries();
  }

  lemma GameEntries()
    ensures "game" in CategoryIcons && CategoryIcons["game"] == GameController
    ensures "games" in CategoryIcons && CategoryIcons["games"] == GameController
    ensures "kidsgame" in CategoryIcons && CategoryIcons["kidsgame"] == GameController
  {
  }

  /** Examples: the case of the letters is ignored. */
  lemma AppCategoryIconExamples()
    ensures AppCategoryIcon("Games", "All") == GameController
    ensures AppCategoryIcon("KidsGame", "All") == GameController
    ensures AppCategoryIcon("ALL", "All") == CirclesFour
  {
    GameEntries();
    assert Lowercase("Games") == "games";
    assert Lowercase("KidsGame") == "kidsgame";
    assert Lowercase("ALL") == "all" && Lowercase("All") == "all";
  }
}
