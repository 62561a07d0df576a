/**
 * The Farcaster mini-app descriptor served at `/.well-known/farcaster.json`:
 * property pruning and the choice of absolute URLs. Environment variables
 * and the request origin are parameters.
 */
module FarcasterManifest {
  import opened Wrappers
  import JsArray

  /** The JavaScript values that occur in the descriptor. */
  datatype JsValue = Undefined | Str(s: string) | Arr(items: seq<string>) | Bool(b: bool)

  /** JavaScript truthiness (`!!v`) of those values. */
  predicate Truthy(v: JsValue) {
    match v
    case Undefined => false
    case Str(s) => s != ""
    case Arr(_) => true
    case Bool(b) => b
  }

  /** One `[key, value]` pair of `Object.entries`; an object is the sequence of its entries. */
  datatype Property = Property(key: string, value: JsValue)

  /** The keys of an object literal are pairwise distinct. */
  ghost predicate KeysUnique(properties: seq<Property>) {
    forall i, j :: 0 <= i < j < |properties| ==> properties[i].key != properties[j].key
  }

  /** Entry `i` has `key` and no later entry has it. */
  ghost predicate LastWithKey(properties: seq<Property>, key: string, i: int) {
    && 0 <= i < |properties|
    && properties[i].key == key
    && forall j :: i < j < |properties| ==> properties[j].key != key
  }

  /**
   * Reading a key of `Object.fromEntries(entries)`: the last entry with that
   * key wins; a missing key reads as `None` (`undefined`, no such property).
   */
  function Lookup(properties: seq<Property>, key: string): (r: Option<JsValue>)
    ensures r.Some? ==> Property(key, r.value) in properties
    ensures r.None? <==> forall i :: 0 <= i < |properties| ==> properties[i].key != key
    decreases |properties|
  {
    if |properties| == 0 then None
    else
      var n := |properties| - 1;
      assert properties == properties[..n] + [properties[n]];
      if properties[n].key == key then Some(properties[n].value)
      else Lookup(properties[..n], key)
  }

  /** A found value is that of the last entry with the key: the later entry wins. */
  lemma {:induction false} LookupFindsLastEntry(properties: seq<Property>, key: string)
    requires Lookup(properties, key).Some?
    ensures exists i :: LastWithKey(properties, key, i) && properties[i].value == Lookup(properties, key).value
    decreases |properties|
  {
    var n := |properties| - 1;
    if properties[n].key == key {
      assert LastWithKey(properties, key, n);
    } else {
      var init := properties[..n];
      assert Lookup(properties, key) == Lookup(init, key);
      LookupFindsLastEntry(init, key);
      var i :| LastWithKey(init, key, i) && init[i].value == Lookup(init, key).value;
      assert properties[i] == init[i];
      assert forall j :: i < j < n ==> properties[j] == init[j];
      assert LastWithKey(properties, key, i);
    }
  }

  /** In an object with distinct keys, reading the key of an entry gives that entry's value. */
  lemma {:induction false} LookupAt(properties: seq<Property>, i: nat)
    requires KeysUnique(properties) && i < |properties|
    ensures Lookup(properties, properties[i].key) == Some(properties[i].value)
    decreases |properties|
  {
    var n := |properties| - 1;
    if i < n {
      assert properties[i].key != properties[n].key;
      assert KeysUnique(properties[..n]);
      LookupAt(properties[..n], i);
    }
  }

  /** The filter callback of `withValidProperties`: arrays must be non-empty, anything else truthy. */
  predicate IsValidProperty(p: Property)
    ensures IsValidProperty(p) <==> Truthy(p.value) && p.value != Arr([])
  {
    if p.value.Arr? then |p.value.items| > 0 else Truthy(p.value)
  }

  /**
   * `withValidProperties`: drops empty arrays and falsy values. Every
   * surviving entry is an input entry, unchanged.
   */
  function WithValidProperties(properties: seq<Property>): (r: seq<Property>)
    ensures |r| <= |properties|
    ensures forall k :: 0 <= k < |r| ==> r[k] in properties
    ensures forall i :: 0 <= i < |properties| && properties[i].value.Arr? ==>
      (properties[i] in r <==> |properties[i].value.items| > 0)
    ensures forall i :: 0 <= i < |properties| && !properties[i].value.Arr? ==>
      (properties[i] in r <==> Truthy(properties[i].value))
  {
    JsArray.Filter(properties, IsValidProperty)
  }

  /** Pruning keeps the surviving entries in their original order. */
  lemma WithValidPropertiesKeepsOrder(properties: seq<Property>)
    ensures JsArray.IsOrderedSubsequence(WithValidProperties(properties), properties)
    ensures JsArray.SelectsAt(WithValidProperties(properties), properties,
      JsArray.KeptIndices(properties, IsValidProperty))
  {
    JsArray.FilterSelectsKeptIndices(properties, IsValidProperty);
    JsArray.FilterIsOrderedSubsequence(properties, IsValidProperty);
  }

  /** Pruning a pruned object changes nothing. */
  lemma WithValidPropertiesIdempotent(properties: seq<Property>)
    ensures WithValidProperties(WithValidProperties(properties)) == WithValidProperties(properties)
  {
    JsArray.FilterIdempotent(properties, IsValidProperty);
  }

  /**
   * Reading a key of a pruned object gives the original value when that
   * entry survived pruning, and nothing otherwise.
   */
  lemma {:induction false} LookupWithValidProperties(properties: seq<Property>, key: string)
    requires KeysUnique(properties)
    ensures Lookup(WithValidProperties(properties), key) ==
      match Lookup(properties, key)
      case Some(v) => if IsValidProperty(Property(key, v)) then Some(v) else None
      case None => None
    decreases |properties|
  {
    if |properties| > 0 {
      var n := |properties| - 1;
      var init, last := properties[..n], properties[n];
      assert KeysUnique(init);
      LookupWithValidProperties(init, key);
      var r0 := WithValidProperties(init);
      assert WithValidProperties(properties) == JsArray.Filter(properties, IsValidProperty);
      assert init == properties[..|properties| - 1];
      if last.key == key {
        assert forall i :: 0 <= i < |init| ==> init[i].key != key by {
          forall i | 0 <= i < |init| ensures init[i].key != key {
            assert properties[i].key != properties[n].key;
          }
        }
        assert Lookup(init, key) == None;
        assert Lookup(r0, key) == None;
        assert Lookup(properties, key) == Some(last.value);
        assert Property(key, last.value) == last;
        if IsValidProperty(last) {
          assert WithValidProperties(properties) == r0 + [last];
          assert Lookup(r0 + [last], key) == Some(last.value);
        } else {
          assert WithValidProperties(properties) == r0;
        }
      } else {
        assert Lookup(properties, key) == Lookup(init, key);
        if IsValidProperty(last) {
          assert WithValidProperties(properties) == r0 + [last];
          assert (r0 + [last])[..|r0|] == r0;
          assert Lookup(r0 + [last], key) == Lookup(r0, key);
        } else {
          assert WithValidProperties(properties) == r0;
        }
      }
    }
  }

  /** The environment variables the descriptor reads; `None` when a variable is not set. */
  datatype Env = Env(
    url: Option<string>,                 // NEXT_PUBLIC_URL
    appIcon: Option<string>,             // NEXT_PUBLIC_APP_ICON
    appOgImage: Option<string>,          // NEXT_PUBLIC_APP_OG_IMAGE
    projectName: Option<string>,         // NEXT_PUBLIC_ONCHAINKIT_PROJECT_NAME
    appSubtitle: Option<string>,         // NEXT_PUBLIC_APP_SUBTITLE
    appDescription: Option<string>,      // NEXT_PUBLIC_APP_DESCRIPTION
    primaryCategory: Option<string>,     // NEXT_PUBLIC_APP_PRIMARY_CATEGORY
    ogTitle: Option<string>,             // NEXT_PUBLIC_APP_OG_TITLE
    ogDescription: Option<string>,       // NEXT_PUBLIC_APP_OG_DESCRIPTION
    farcasterHeader: Option<string>,     // FARCASTER_HEADER
    farcasterPayload: Option<string>,    // FARCASTER_PAYLOAD
    farcasterSignature: Option<string>)  // FARCASTER_SIGNATURE

  /** A string-or-undefined is truthy when it is a non-empty string. */
  predicate IsSet(v: Option<string>) {
    v.Some? && v.value != ""
  }

  /** `a || b` over strings-or-undefined. */
  function OrElse(a: Option<string>, b: Option<string>): (r: Option<string>) {
    if IsSet(a) then a else b
  }

  /** A string-or-undefined as a JavaScript value. */
  function ToJs(v: Option<string>): (r: JsValue) {
    if v.Some? then Str(v.value) else Undefined
  }

  /**
   * The request origin: the origin of the request URL when it is non-empty,
   * otherwise `proto://host` built from the `x-forwarded-host` (else `host`)
   * header and the `x-forwarded-proto` header (else "https"), otherwise
   * undefined. `urlOrigin` is `None` when the URL cannot be parsed; header
   * names are the lower-case keys of `headers`.
   */
  function RequestOrigin(urlOrigin: Option<string>, headers: map<string, string>): (r: Option<string>)
    ensures IsSet(urlOrigin) ==> r == urlOrigin
    ensures r.None? <==> !IsSet(urlOrigin) && !IsSet(Header(headers, "x-forwarded-host")) && !IsSet(Header(headers, "host"))
    ensures r.Some? ==> r.value != ""
    ensures !IsSet(urlOrigin) && IsSet(Header(headers, "x-forwarded-host")) ==>
      r == Some(ForwardedProto(headers) + "://" + headers["x-forwarded-host"])
    ensures !IsSet(urlOrigin) && !IsSet(Header(headers, "x-forwarded-host")) && IsSet(Header(headers, "host")) ==>
      r == Some(ForwardedProto(headers) + "://" + headers["host"])
  {
    if IsSet(urlOrigin) then urlOrigin
    else
      var host := OrElse(Header(headers, "x-forwarded-host"), Header(headers, "host"));
      var proto := OrElse(Header(headers, "x-forwarded-proto"), Some("https"));
      if IsSet(host) then Some(proto.value + "://" + host.value) else None
  }

  /** The scheme of a reconstructed origin: the `x-forwarded-proto` header when non-empty, else "https". */
  function ForwardedProto(headers: map<string, string>): (proto: string) {
    if "x-forwarded-proto" in headers && headers["x-forwarded-proto"] != "" then headers["x-forwarded-proto"] else "https"
  }

  /** `headers.get(name)`: the header value, or `None` (null) when absent. */
  function Header(headers: map<string, string>, name: string): (r: Option<string>) {
    if name in headers then Some(headers[name]) else None
  }

  /** `URL`: NEXT_PUBLIC_URL when it is set and non-empty, else the request origin. */
  function EffectiveUrl(env: Env, requestOrigin: Option<string>): (url: Option<string>)
    ensures IsSet(env.url) ==> url == env.url
    ensures !IsSet(env.url) ==> url == requestOrigin
  {
    OrElse(env.url, requestOrigin)
  }

  /** An asset URL: the override variable when set, else `URL + path` when URL is truthy, else undefined. */
  function AssetUrl(override: Option<string>, url: Option<string>, path: string): (r: Option<string>)
    ensures IsSet(override) ==> r == override
    ensures !IsSet(override) && IsSet(url) ==> r == Some(url.value + path)
    ensures !IsSet(override) && !IsSet(url) ==> r.None?
  {
    OrElse(override, if IsSet(url) then Some(url.value + path) else None)
  }

  const Tags: seq<string> := ["base buddies", "buddies", "social", "challenges", "rewards"]
  const DefaultName: string := "Base Buddies"
  const DefaultDescription: string := "A fun onchain app built on Base!"

  /** The keys of the frame literal, in source order. */
  const FrameKeys: seq<string> := [
    "version", "name", "subtitle", "description", "screenshotUrls", "iconUrl", "homeUrl",
    "webhookUrl", "primaryCategory", "tags", "ogTitle", "ogDescription", "ogImageUrl"]

  /** The object literal handed to `withValidProperties`, in source order. */
  function FrameProperties(env: Env, requestOrigin: Option<string>): (props: seq<Property>)
    ensures |props| == |FrameKeys|
    ensures forall i :: 0 <= i < |props| ==> props[i].key == FrameKeys[i]
  {
    var url := EffectiveUrl(env, requestOrigin);
    [ Property("version", Str("1")),
      Property("name", ToJs(OrElse(env.projectName, Some(DefaultName)))),
      Property("subtitle", ToJs(env.appSubtitle)),
      Property("description", ToJs(OrElse(env.appDescription, Some(DefaultDescription)))),
      Property("screenshotUrls", Arr([])),
      Property("iconUrl", ToJs(AssetUrl(env.appIcon, url, "/icon.png"))),
      Property("homeUrl", ToJs(url)),
      Property("webhookUrl", if IsSet(url) then Str(url.value + "/api/webhook") else Undefined),
      Property("primaryCategory", ToJs(env.primaryCategory)),
      Property("tags", Arr(Tags)),
      Property("ogTitle", ToJs(env.ogTitle)),
      Property("ogDescription", ToJs(env.ogDescription)),
      Property("ogImageUrl", ToJs(AssetUrl(env.appOgImage, url, "/og-image.png")))
    ]
  }

  /** The descriptor: the account association as given, and the pruned frame. */
  datatype Manifest = Manifest(accountAssociation: seq<Property>, frame: seq<Property>)

  /** `GET`: the descriptor for the given environment and request origin. */
  function ServeManifest(env: Env, requestOrigin: Option<string>): (m: Manifest)
    ensures forall k :: 0 <= k < |m.frame| ==> IsValidProperty(m.frame[k])
    ensures |m.accountAssociation| == 3
    ensures Lookup(m.accountAssociation, "header") == Some(ToJs(env.farcasterHeader))
    ensures Lookup(m.accountAssociation, "payload") == Some(ToJs(env.farcasterPayload))
    ensures Lookup(m.accountAssociation, "signature") == Some(ToJs(env.farcasterSignature))
  {
    var frame := WithValidProperties(FrameProperties(env, requestOrigin));
    var association := [
      Property("header", ToJs(env.farcasterHeader)),
      Property("payload", ToJs(env.farcasterPayload)),
      Property("signature", ToJs(env.farcasterSignature)) ];
    assert association[..2] == association[..1] + [association[1]] && association[..1][..0] == [];
    assert Lookup(association[..1], "header") == Some(ToJs(env.farcasterHeader));
    assert Lookup(association[..2], "header") == Some(ToJs(env.farcasterHeader));
    assert Lookup(association[..2], "payload") == Some(ToJs(env.farcasterPayload));
    Manifest(association, frame)
  }

  /** The frame literal names each key once. */
  lemma FramePropertyKeysUnique(env: Env, requestOrigin: Option<string>)
    ensures KeysUnique(FrameProperties(env, requestOrigin))
  {
  }

  /** Reading the key of entry `i` of the frame literal from the served frame. */
  lemma FrameLookup(env: Env, requestOrigin: Option<string>, i: nat, p: Property)
    requires i < 13 && FrameProperties(env, requestOrigin)[i] == p
    ensures Lookup(ServeManifest(env, requestOrigin).frame, p.key)
      == if IsValidProperty(p) then Some(p.value) else None
  {
    var props := FrameProperties(env, requestOrigin);
    FramePropertyKeysUnique(env, requestOrigin);
    LookupAt(props, i);
    LookupWithValidProperties(props, p.key);
  }

  /** The frame always carries version "1". */
  lemma FrameHasVersion(env: Env, requestOrigin: Option<string>)
    ensures Lookup(ServeManifest(env, requestOrigin).frame, "version") == Some(Str("1"))
  {
    FrameLookup(env, requestOrigin, 0, Property("version", Str("1")));
  }

  /** The frame never carries `screenshotUrls`: its empty array is pruned. */
  lemma FrameOmitsScreenshotUrls(env: Env, requestOrigin: Option<string>)
    ensures Lookup(ServeManifest(env, requestOrigin).frame, "screenshotUrls") == None
  {
    FrameLookup(env, requestOrigin, 4, Property("screenshotUrls", Arr([])));
  }

  /** The frame always carries the five tags. */
  lemma FrameHasTags(env: Env, requestOrigin: Option<string>)
    ensures Lookup(ServeManifest(env, requestOrigin).frame, "tags") == Some(Arr(Tags))
  {
    FrameLookup(env, requestOrigin, 9, Property("tags", Arr(Tags)));
  }

  /** The frame always carries a name: the project-name variable when set, else "Base Buddies". */
  lemma FrameHasName(env: Env, requestOrigin: Option<string>)
    ensures Lookup(ServeManifest(env, requestOrigin).frame, "name")
      == Some(Str(if IsSet(env.projectName) then env.projectName.value else DefaultName))
  {
    FrameLookup(env, requestOrigin, 1, Property("name", ToJs(OrElse(env.projectName, Some(DefaultName)))));
  }

  /** The frame always carries a description: the description variable when set, else the built-in text. */
  lemma FrameHasDescription(env: Env, requestOrigin: Option<string>)
    ensures Lookup(ServeManifest(env, requestOrigin).frame, "description")
      == Some(Str(if IsSet(env.appDescription) then env.appDescription.value else DefaultDescription))
  {
    FrameLookup(env, requestOrigin, 3, Property("description", ToJs(OrElse(env.appDescription, Some(DefaultDescription)))));
  }

  /** The subtitle appears exactly when its variable is set and non-empty. */
  lemma FrameSubtitle(env: Env, requestOrigin: Option<string>)
    ensures Lookup(ServeManifest(env, requestOrigin).frame, "subtitle")
      == if IsSet(env.appSubtitle) then Some(Str(env.appSubtitle.value)) else None
  {
    FrameLookup(env, requestOrigin, 2, Property("subtitle", ToJs(env.appSubtitle)));
  }

  /** `homeUrl` is URL when URL is set, and is pruned otherwise. */
  lemma FrameHomeUrl(env: Env, requestOrigin: Option<string>)
    ensures var url := EffectiveUrl(env, requestOrigin);
      Lookup(ServeManifest(env, requestOrigin).frame, "homeUrl") == if IsSet(url) then Some(Str(url.value)) else None
  {
    FrameLookup(env, requestOrigin, 6, Property("homeUrl", ToJs(EffectiveUrl(env, requestOrigin))));
  }

  /** `webhookUrl` is URL + "/api/webhook" when URL is set, and is pruned otherwise. */
  lemma FrameWebhookUrl(env: Env, requestOrigin: Option<string>)
    ensures var url := EffectiveUrl(env, requestOrigin);
      Lookup(ServeManifest(env, requestOrigin).frame, "webhookUrl")
        == if IsSet(url) then Some(Str(url.value + "/api/webhook")) else None
  {
    FrameLookup(env, requestOrigin, 7, Property("webhookUrl", if IsSet(EffectiveUrl(env, requestOrigin)) then Str(EffectiveUrl(env, requestOrigin).value + "/api/webhook") else Undefined));
  }

  /** `iconUrl` is NEXT_PUBLIC_APP_ICON when set, else URL + "/icon.png" when URL is set, else pruned. */
  lemma FrameIconUrl(env: Env, requestOrigin: Option<string>)
    ensures var url := EffectiveUrl(env, requestOrigin);
      Lookup(ServeManifest(env, requestOrigin).frame, "iconUrl")
        == if IsSet(env.appIcon) then Some(Str(env.appIcon.value))
           else if IsSet(url) then Some(Str(url.value + "/icon.png"))
           else None
  {
    FrameLookup(env, requestOrigin, 5, Property("iconUrl", ToJs(AssetUrl(env.appIcon, EffectiveUrl(env, requestOrigin), "/icon.png"))));
  }

  /** `ogImageUrl` is NEXT_PUBLIC_APP_OG_IMAGE when set, else URL + "/og-image.png" when URL is set, else pruned. */
  lemma FrameOgImageUrl(env: Env, requestOrigin: Option<string>)
    ensures var url := EffectiveUrl(env, requestOrigin);
      Lookup(ServeManifest(env, requestOrigin).frame, "ogImageUrl")
        == if IsSet(env.appOgImage) then Some(Str(env.appOgImage.value))
           else if IsSet(url) then Some(Str(url.value + "/og-image.png"))
           else None
  {
    FrameLookup(env, requestOrigin, 12, Property("ogImageUrl", ToJs(AssetUrl(env.appOgImage, EffectiveUrl(env, requestOrigin), "/og-image.png"))));
  }
}
