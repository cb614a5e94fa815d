/**
  Deep-link classification and intent dispatch of NeoActivity.kt. A `Uri` is
  a record of the parts Android's parser would have produced; the handled
  flag is the intent's `EXTRA_INTENT_HANDLED` extra, which `HandleIntent`
  updates in place; navigation, the search query, the repository form, the
  app sheet and the installer call are effects appended to a trace.
*/
module NeoActivity {
  import opened Wrappers
  import opened Text

  // ----- Uri -----

  /**
    An `android.net.Uri`. A hierarchical uri has an authority and a path; an
    opaque one (`scheme:part` with no `//`) has neither, and asking it for a
    query parameter throws.
  */
  datatype Uri =
    | Hierarchical(scheme: Option<string>, host: Option<string>, schemeSpecificPart: Option<string>,
                   path: Option<string>, query: map<string, string>, lastPathSegment: Option<string>)
    | Opaque(scheme: Option<string>, schemeSpecificPart: Option<string>)
  {
    function Host(): Option<string> {
      if Hierarchical? then host else None
    }

    function LastPathSegment(): Option<string> {
      if Hierarchical? then lastPathSegment else None
    }

    /** The query parameters; an opaque uri has none. */
    function Query(): map<string, string> {
      if Hierarchical? then query else map[]
    }

    /** `getQueryParameter`: the first value of the parameter, `null` when absent; throws on an opaque uri. */
    function QueryParameter(name: string): Result<Option<string>> {
      match this
      case Opaque(_, _) => Thrown
      case Hierarchical(_, _, _, _, query, _) => Ok(if name in query then Some(query[name]) else None)
    }
  }

  predicate IsFDroidHost(host: string) {
    host == "f-droid.org" || EndsWith(host, ".f-droid.org") || host == "apt.izzysoft.de"
  }

  /**
    The `Intent.packageName` getter on the intent's data: the scheme-specific
    part of a `package:` or `fdroid.app:` uri, the `id` parameter of a
    `market://details` uri, the last path segment of an `http(s)` link to an
    F-Droid or IzzyOnDroid host, and `null` for everything else; every
    result passes through `nullIfEmpty`.
  */
  function PackageNameOf(data: Option<Uri>): (r: Option<string>)
    ensures r.Some? ==> r.value != []
    ensures data.None? ==> r.None?
    ensures data.Some? && data.value.scheme in {Some("package"), Some("fdroid.app")}
            ==> r == NullIfEmpty(data.value.schemeSpecificPart)
    ensures data.Some? && data.value.scheme == Some("market") && data.value.Host() == Some("details")
            ==> r == NullIfEmpty(data.value.QueryParameter("id").value)
    ensures data.Some? && data.value.scheme == Some("market") && data.value.Host() != Some("details")
            ==> r.None?
    ensures data.Some? && data.value.scheme in {Some("http"), Some("https")}
            ==> r == if IsFDroidHost(data.value.Host().GetOr("")) then NullIfEmpty(data.value.LastPathSegment()) else None
    ensures data.Some? && data.value.scheme !in {Some("package"), Some("fdroid.app"), Some("market"), Some("http"), Some("https")}
            ==> r.None?
  {
    match data
    case None => None
    case Some(uri) =>
      if uri.scheme == Some("package") || uri.scheme == Some("fdroid.app") then
        NullIfEmpty(uri.schemeSpecificPart)
      else if uri.scheme == Some("market") && uri.Host() == Some("details") then
        // a uri with a host is hierarchical, so the lookup does not throw
        NullIfEmpty(uri.QueryParameter("id").value)
      else if uri.scheme == Some("http") || uri.scheme == Some("https") then
        var host := uri.Host().GetOr("");
        if host == "f-droid.org" || EndsWith(host, ".f-droid.org") then NullIfEmpty(uri.LastPathSegment())
        else if host == "apt.izzysoft.de" then NullIfEmpty(uri.LastPathSegment())
        else None
      else None
  }

  /** App links the getter recognises, and an empty one and an opaque market link it does not. */
  lemma PackageNameExamples()
    ensures PackageNameOf(Some(Opaque(Some("package"), Some("org.fdroid.fdroid")))) == Some("org.fdroid.fdroid")
    ensures PackageNameOf(Some(Opaque(Some("fdroid.app"), Some("")))) == None
    ensures PackageNameOf(Some(Hierarchical(Some("market"), Some("details"), Some("//details?id=org.a"),
                                            None, map["id" := "org.a"], None))) == Some("org.a")
    ensures PackageNameOf(Some(Opaque(Some("market"), Some("details?id=org.a")))) == None
  {
  }

  /** A web link to a subdomain of f-droid.org is recognised; a host that only starts with it is not. */
  lemma PackageNameWebExamples()
    ensures PackageNameOf(Some(Hierarchical(Some("https"), Some("www.f-droid.org"), None,
                                            Some("/packages/org.a"), map[], Some("org.a")))) == Some("org.a")
    ensures PackageNameOf(Some(Hierarchical(Some("https"), Some("f-droid.org.evil"), None,
                                            Some("/packages/org.a"), map[], Some("org.a")))) == None
  {
    assert EndsWith("www.f-droid.org", ".f-droid.org") by {
      assert "www.f-droid.org"[3..] == ".f-droid.org";
    }
    assert !EndsWith("f-droid.org.evil", ".f-droid.org") by {
      assert "f-droid.org.evil"[4] != ".f-droid.org"[0];
    }
  }

  // ----- Intents -----

  const ActionView: string := "android.intent.action.VIEW"

  /** `ACTION_UPDATES`, built from the application id. */
  function ActionUpdates(applicationId: string): string {
    applicationId + ".intent.action.UPDATES"
  }

  /** `ACTION_INSTALL`, built from the application id. */
  function ActionInstall(applicationId: string): string {
    applicationId + ".intent.action.INSTALL"
  }

  /** The three actions `handleIntent` recognises are distinct strings whatever the application id. */
  lemma ActionsDistinct(applicationId: string)
    ensures ActionView != ActionUpdates(applicationId)
    ensures ActionView != ActionInstall(applicationId)
    ensures ActionUpdates(applicationId) != ActionInstall(applicationId)
  {
    var u, i := ActionUpdates(applicationId), ActionInstall(applicationId);
    assert u[|u| - 1] == 'S' && i[|i| - 1] == 'L' && ActionView[|ActionView| - 1] == 'W';
  }

  /** An intent: its action, its data, the cache-file extra, and the handled flag, which is the one part that changes. */
  class Intent {
    const action: Option<string>
    const data: Option<Uri>
    const cacheFileName: Option<string>
    var handled: bool

    constructor (action: Option<string>, data: Option<Uri>, cacheFileName: Option<string>)
      ensures this.action == action && this.data == data && this.cacheFileName == cacheFileName
      ensures !handled
    {
      this.action, this.data, this.cacheFileName := action, data, cacheFileName;
      handled := false;
    }
  }

  datatype SpecialIntent =
    | Updates
    | Install(packageName: Option<string>, cacheFileName: Option<string>)
    | AddRepo(address: Option<string>, fingerprint: Option<string>)

  /** The destinations `handleIntent` navigates to: a page of the main screen or of the preferences. */
  datatype Route = MainPage(page: int) | PrefsPage(page: int)

  datatype Effect =
    | SetRepoIntent(address: Option<string>, fingerprint: Option<string>)   // prefsViewModel.setIntent
    | Navigate(route: Route)
    | EmitSearchQuery(query: string)
    | ShowProduct(packageName: string)                                       // navigateProduct
    | InstallRequest(packageName: string, cacheFileName: string)             // defaultInstaller.install

  predicate HasRepoIntent(effects: seq<Effect>) {
    exists e :: e in effects && e.SetRepoIntent?
  }

  predicate HasInstallRequest(effects: seq<Effect>) {
    exists e :: e in effects && e.InstallRequest?
  }

  /**
    `handleSpecialIntent`; `installerAvailable` says whether
    `AppInstaller.getInstance(...)?.defaultInstaller` is non-null.
  */
  function SpecialIntentEffects(special: SpecialIntent, installerAvailable: bool): (effects: seq<Effect>)
    ensures special.Updates? ==> effects == [Navigate(MainPage(2))]
    ensures special.AddRepo? ==> effects == [SetRepoIntent(special.address, special.fingerprint), Navigate(PrefsPage(2))]
    ensures HasInstallRequest(effects)
            <==> special.Install? && special.packageName.Some? && special.packageName.value != []
                 && special.cacheFileName.Some? && installerAvailable
    ensures special.Install? ==> |effects| <= 1
    ensures special.Install? && effects != [] ==>
              && special.packageName.Some? && special.cacheFileName.Some?
              && effects == [InstallRequest(special.packageName.value, special.cacheFileName.value)]
    ensures HasRepoIntent(effects) <==> special.AddRepo?
  {
    match special
    case Updates => [Navigate(MainPage(2))]
    case AddRepo(address, fingerprint) =>
      var effects := [SetRepoIntent(address, fingerprint), Navigate(PrefsPage(2))];
      assert effects[0] in effects;
      effects
    case Install(packageName, cacheFileName) =>
      if packageName.Some? && packageName.value != [] && cacheFileName.Some? && installerAvailable then
        var effects := [InstallRequest(packageName.value, cacheFileName.value)];
        assert effects[0] in effects;
        effects
      else []
  }

  /** `?.uppercase()?.nullIfEmpty()` on a query parameter that has already been looked up. */
  function UppercaseNonEmpty(parameter: Option<string>): (r: Option<string>)
    ensures r.Some? <==> parameter.Some? && parameter.value != []
    ensures r.Some? ==> r.value == Uppercase(parameter.value)
  {
    if parameter.Some? then NullIfEmpty(Some(Uppercase(parameter.value))) else None
  }

  /**
    The `try` block of the `ACTION_VIEW` branch: the address `buildAddress`
    makes of the uri (the rebuilt https uri, which is not part of this
    model), and the upper-cased `fingerprint` parameter with `FINGERPRINT`
    as fallback; anything that throws yields `(null, null)`.
  */
  function RepoArgs(data: Uri, buildAddress: Uri -> Result<string>): (r: (Option<string>, Option<string>))
    ensures buildAddress(data).Thrown? || data.Opaque? ==> r == (None, None)
    ensures buildAddress(data).Ok? && data.Hierarchical? ==> r.0 == Some(buildAddress(data).value)
    ensures data.Hierarchical? && "fingerprint" in data.query && data.query["fingerprint"] != []
            ==> r.1 == (if buildAddress(data).Ok? then Some(Uppercase(data.query["fingerprint"])) else None)
    ensures data.Hierarchical? && buildAddress(data).Ok?
            && ("fingerprint" !in data.query || data.query["fingerprint"] == [])
            && "FINGERPRINT" in data.query && data.query["FINGERPRINT"] != []
            ==> r.1 == Some(Uppercase(data.query["FINGERPRINT"]))
    ensures ("fingerprint" !in data.Query() || data.Query()["fingerprint"] == [])
            && ("FINGERPRINT" !in data.Query() || data.Query()["FINGERPRINT"] == [])
            ==> r.1 == None
    ensures r.1.Some? ==> && r.1.value != [] && data.Hierarchical?
                          && (|| ("fingerprint" in data.query && r.1.value == Uppercase(data.query["fingerprint"]))
                              || ("FINGERPRINT" in data.query && r.1.value == Uppercase(data.query["FINGERPRINT"])))
  {
    match buildAddress(data)
    case Thrown => (None, None)
    case Ok(address) =>
      match (data.QueryParameter("fingerprint"), data.QueryParameter("FINGERPRINT"))
      case (Ok(lower), Ok(upper)) =>
        (Some(address), UppercaseNonEmpty(lower).OrElse(UppercaseNonEmpty(upper)))
      case _ => (None, None)
  }

  /** What `handleIntent` does with one intent: the special intent or effects it produces, and whether it sets the flag. */
  datatype Dispatch = Dispatch(effects: seq<Effect>, marksHandled: bool)

  /** `handleIntent`, as a function of the intent's parts and of the activity's environment. */
  function IntentEffects(action: Option<string>, data: Option<Uri>, handled: bool, cacheFileName: Option<string>,
                         applicationId: string, installerAvailable: bool, buildAddress: Uri -> Result<string>): (d: Dispatch)
    ensures d.marksHandled ==> !handled
    ensures action == Some(ActionView) ==>
              (HasRepoIntent(d.effects) <==> data.Some? && !handled)
    ensures action == Some(ActionView) && data.Some? && !handled ==>
              d.marksHandled && d.effects == SpecialIntentEffects(AddRepo(RepoArgs(data.value, buildAddress).0, RepoArgs(data.value, buildAddress).1), installerAvailable)
    ensures action == Some(ActionUpdates(applicationId)) ==>
              d.marksHandled == !handled && d.effects == (if handled then [] else [Navigate(MainPage(2))])
    ensures action == Some(ActionInstall(applicationId)) ==>
              !d.marksHandled && d.effects == SpecialIntentEffects(Install(PackageNameOf(data), cacheFileName), installerAvailable)
    ensures action !in {Some(ActionView), Some(ActionUpdates(applicationId)), Some(ActionInstall(applicationId))} ==>
              d == Dispatch([], false)
    ensures HasRepoIntent(d.effects) ==> d.marksHandled
    ensures action == Some(ActionView) && (data.None? || handled) && data.Some? && data.value.Host() == Some("search") ==>
              && data.value.QueryParameter("q").Ok?
              && d == Dispatch([Navigate(MainPage(3)), EmitSearchQuery(data.value.QueryParameter("q").value.GetOr(""))], false)
    ensures action == Some(ActionView) && (data.None? || handled) && !(data.Some? && data.value.Host() == Some("search")) ==>
              d == Dispatch(if PackageNameOf(data).Some? then [ShowProduct(PackageNameOf(data).value)] else [], false)
  {
    ActionsDistinct(applicationId);
    if action == Some(ActionView) then
      if data.Some? && !handled then
        var args := RepoArgs(data.value, buildAddress);
        Dispatch(SpecialIntentEffects(AddRepo(args.0, args.1), installerAvailable), true)
      else if data.Some? && data.value.Host() == Some("search") then
        // a uri with a host is hierarchical, so the lookup does not throw
        var query := data.value.QueryParameter("q").value;
        Dispatch([Navigate(MainPage(3)), EmitSearchQuery(query.GetOr(""))], false)
      else
        var packageName := PackageNameOf(data);
        Dispatch(if packageName.Some? then [ShowProduct(packageName.value)] else [], false)
    else if action == Some(ActionUpdates(applicationId)) then
      if !handled then Dispatch(SpecialIntentEffects(Updates, installerAvailable), true) else Dispatch([], false)
    else if action == Some(ActionInstall(applicationId)) then
      Dispatch(SpecialIntentEffects(Install(PackageNameOf(data), cacheFileName), installerAvailable), false)
    else
      Dispatch([], false)
  }

  /**
    Handling an intent a second time, with the flag the first handling left:
    no second repository form and no second navigation to the updates page.
  */
  lemma {:induction false} HandledOnce(action: Option<string>, data: Option<Uri>, handled: bool, cacheFileName: Option<string>,
                                       applicationId: string, installerAvailable: bool, buildAddress: Uri -> Result<string>)
    ensures var first := IntentEffects(action, data, handled, cacheFileName, applicationId, installerAvailable, buildAddress);
            var second := IntentEffects(action, data, handled || first.marksHandled, cacheFileName, applicationId, installerAvailable, buildAddress);
            && !HasRepoIntent(second.effects)
            && !second.marksHandled
            && (action == Some(ActionUpdates(applicationId)) ==> second.effects == [])
  {
    ActionsDistinct(applicationId);
  }

  // ----- The activity -----

  /** The activity's part in intent handling: the effects it has caused so far. */
  class Activity {
    const applicationId: string
    const installerAvailable: bool
    var effects: seq<Effect>

    constructor (applicationId: string, installerAvailable: bool)
      ensures this.applicationId == applicationId && this.installerAvailable == installerAvailable
      ensures effects == []
    {
      this.applicationId, this.installerAvailable := applicationId, installerAvailable;
      effects := [];
    }

    /** `handleSpecialIntent`. */
    method HandleSpecialIntent(special: SpecialIntent)
      modifies this
      ensures effects == old(effects) + SpecialIntentEffects(special, installerAvailable)
    {
      match special {
        case Updates =>
          effects := effects + [Navigate(MainPage(2))];
        case AddRepo(address, fingerprint) =>
          effects := effects + [SetRepoIntent(address, fingerprint), Navigate(PrefsPage(2))];
        case Install(packageName, cacheFileName) =>
          if packageName.Some? && packageName.value != [] && cacheFileName.Some? && installerAvailable {
            effects := effects + [InstallRequest(packageName.value, cacheFileName.value)];
          }
      }
    }

    /** `handleIntent` (also reached through `onNewIntent`, where the intent may be null). */
    method HandleIntent(intent: Intent?, buildAddress: Uri -> Result<string>)
      modifies this, intent
      ensures intent == null ==> effects == old(effects)
      ensures intent != null ==>
                var d := IntentEffects(intent.action, intent.data, old(intent.handled), intent.cacheFileName,
                                       applicationId, installerAvailable, buildAddress);
                effects == old(effects) + d.effects && intent.handled == (old(intent.handled) || d.marksHandled)
    {
      if intent == null {
        return;
      }
      ActionsDistinct(applicationId);
      var data := intent.data;
      if intent.action == Some(ActionView) {
        if data.Some? && !intent.handled {
          intent.handled := true;
          var args := RepoArgs(data.value, buildAddress);
          HandleSpecialIntent(AddRepo(args.0, args.1));
        } else if data.Some? && data.value.Host() == Some("search") {
          var query := data.value.QueryParameter("q").value;
          effects := effects + [Navigate(MainPage(3)), EmitSearchQuery(query.GetOr(""))];
        } else {
          var packageName := PackageNameOf(data);
          if packageName.Some? {
            effects := effects + [ShowProduct(packageName.value)];
          }
        }
      } else if intent.action == Some(ActionUpdates(applicationId)) {
        if !intent.handled {
          intent.handled := true;
          HandleSpecialIntent(Updates);
        }
      } else if intent.action == Some(ActionInstall(applicationId)) {
        HandleSpecialIntent(Install(PackageNameOf(data), intent.cacheFileName));
      }
    }
  }

  /** The same intent delivered twice adds at most one repository form and leaves the flag set. */
  method DeliverTwice(activity: Activity, intent: Intent, buildAddress: Uri -> Result<string>)
    requires intent.action == Some(ActionView) && intent.data.Some? && !intent.handled
    modifies activity, intent
    ensures intent.handled
    ensures |activity.effects| >= |old(activity.effects)|
    ensures var added := activity.effects[|old(activity.effects)|..];
            |added| >= 2 && added[0].SetRepoIntent? && !HasRepoIntent(added[2..])
  {
    activity.HandleIntent(intent, buildAddress);
    ghost var afterFirst := activity.effects;
    activity.HandleIntent(intent, buildAddress);
    HandledOnce(intent.action, intent.data, true, intent.cacheFileName, activity.applicationId, activity.installerAvailable, buildAddress);
    assert activity.effects[|old(activity.effects)|..][2..] == activity.effects[|afterFirst|..];
  }
}
