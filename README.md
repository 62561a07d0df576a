# Base Buddies: verified model of the pure helpers

Base Buddies is a social-challenge mini-app on Base: users browse
challenges, connect a wallet, and the app serves a Farcaster mini-app
descriptor. Its front end is mostly rendering; the logic it does contain is
a handful of small pure helpers, and this project models those in Dafny
and proves what they promise:

- the home page's challenge filter (search term and category), which both
  home page variants (`app/page.js` and `pages/index.js`) define
  identically over the same four mock challenges: modelled once, in
  `ChallengeSearch`;
- the challenge card's badge lookups (category colour, proof-type icon),
  in `ChallengeCard`;
- the wallet address shortening, in `WalletConnect`;
- the descriptor endpoint's property pruning (`withValidProperties`) and
  its URL fallbacks, in `FarcasterManifest`.

Two support modules model the JavaScript built-ins these rely on:
`JsText` (ASCII `toLowerCase`, `includes`, `slice` with negative-index
clamping) and `JsArray` (`Array.prototype.filter`, shared by the challenge
filter and the property pruning). `Wrappers` holds `Option`, used for
values that may be `undefined`.

Environment variables and the request origin are explicit
`Option<string>` parameters (`None` = not set / `undefined`). A JavaScript
object is the ordered sequence of its `Object.entries`; reading a key of
`Object.fromEntries(...)` takes the last entry with that key.

All files are verified together:

    dafny verify --resource-limit 2000000 --verification-time-limit 0 --warn-contradictory-assumptions *.dfy

## Model

| member | source | states |
|---|---|---|
| `JsText.ToLower` | app/page.js:77-78 | same length; each ASCII upper-case letter becomes the lower-case letter at the same alphabet position; every other character unchanged |
| `JsText.Includes` | app/page.js:77-78 | true exactly when the term occurs at some index of the text (the empty term always does) |
| `JsText.RelativeIndex` | components/WalletConnect.js:42 | a `slice` bound resolves into [0, n]: an in-range non-negative bound is itself, a negative bound no further back than the start counts from the end; a bound past the end resolves to n and one further back than the start to 0 |
| `JsText.Slice` | components/WalletConnect.js:42 | `s[start..end]` for in-range bounds; from `start` (clamped) to the end when `end` reaches the length; the last `-start` characters for a negative `start`, or all of `s` when `-start` exceeds the length; empty when `0 <= end <= start`; always a piece of `s` |
| `JsArray.Filter` | app/page.js:76-81 | no longer than the input; every kept element is an input element the callback accepts; every accepted input element is kept |
| `JsArray.KeptIndices` | app/page.js:76-81 | the accepted positions, strictly increasing, each accepted, and every accepted position listed |
| `JsArray.FilterSelectsKeptIndices` | app/page.js:76-81 | the k-th kept element is the input element at the k-th accepted position, so the result is the accepted elements in input order |
| `JsArray.FilterIsOrderedSubsequence` | pages/index.js:66-71 | the result is an order-preserving subsequence of the input |
| `JsArray.FilterCongruent` | app/page.js:76-81 | callbacks that agree on every element give the same result |
| `JsArray.FilterKeepsAll` | app/page.js:76-81 | a callback accepting every element returns the input unchanged |
| `JsArray.FilterKeepsNone` | pages/index.js:66-71 | a callback rejecting every element returns the empty list |
| `JsArray.FilterIdempotent` | app/.well-known/farcaster.json/route.js:4-11 | filtering twice with one callback equals filtering once |
| `ChallengeSearch.Matches` | app/page.js:76-80 | the filter callback holds exactly when the lower-cased term occurs in the lower-cased title or description and the category is the selected one or "All" is selected |
| `ChallengeSearch.FilterChallenges` | app/page.js:76-81 | sound: every listed challenge is an input challenge whose lower-cased title or description contains the lower-cased term and whose category is the selected one unless "All" is selected; complete: every input challenge meeting both conditions is listed; never longer than the input |
| `ChallengeSearch.FilterChallengesKeepsOrder` | pages/index.js:66-71 | the listed challenges are exactly the matching ones in list order |
| `ChallengeSearch.FilterChallengesIgnoresSearchCase` | app/page.js:77-78 | two search terms with the same lower-cased form give the same list |
| `ChallengeSearch.FilterChallengesLowerCasedTerm` | pages/index.js:67-68 | searching for a term and for its lower-cased form gives the same list |
| `ChallengeSearch.FilterChallengesInitialState` | app/page.js:62-81 | with the initial empty search and "All" every challenge is listed, unchanged |
| `ChallengeSearch.HomeFilteredChallenges` | pages/index.js:66-71 | a home page lists at most four challenges, all from the mock list |
| `ChallengeSearch.HomeCreativeOrTechIsEmpty` | pages/index.js:8-71 | choosing "Creative" or "Tech" lists nothing, whatever the search term |
| `ChallengeSearch.HomeInitialListsAllFour` | app/page.js:10-81 | on first render the list is the four mock challenges in order |
| `ChallengeCard.CategoryColor` | components/ChallengeCard.js:7-16 | a known category gets its table entry; an absent or unknown one gets the gray default, and only those do; the result is always one of the six class strings |
| `ChallengeCard.KnownCategoryColors` | components/ChallengeCard.js:8-14 | Social, Education, Lifestyle, Creative and Tech each get exactly their listed classes |
| `ChallengeCard.CategoryColorsDistinct` | components/ChallengeCard.js:8-14 | distinct known categories get distinct classes |
| `ChallengeCard.ProofTypeIcon` | components/ChallengeCard.js:18-29 | "image", "text" and "link" get the camera, memo and link icons, each exactly for that type; anything else, including an absent type, gets the page icon |
| `WalletConnect.FormatAddress` | components/WalletConnect.js:40-43 | empty exactly for an absent or empty address; otherwise the first min(6,n) characters, "...", then the last min(4,n), of length min(6,n)+3+min(4,n) with "..." at index min(6,n) |
| `WalletConnect.FormatAddressKeepsEnds` | components/WalletConnect.js:42 | for n >= 6 the result starts with the address's first six characters and ends with its last four |
| `WalletConnect.FormatFullAddress` | components/WalletConnect.js:42 | a 42-character address shortens to 13 characters: its first six, "...", its last four |
| `FarcasterManifest.Lookup` | app/.well-known/farcaster.json/route.js:4 | a found value belongs to an entry with that key; nothing is found exactly when no entry has the key |
| `FarcasterManifest.LookupFindsLastEntry` | app/.well-known/farcaster.json/route.js:4 | a found value is that of the last entry with the key: no later entry has it |
| `FarcasterManifest.LookupAt` | app/.well-known/farcaster.json/route.js:4 | with distinct keys, reading an entry's key gives that entry's value |
| `FarcasterManifest.IsValidProperty` | app/.well-known/farcaster.json/route.js:5-10 | an entry is kept exactly when its value is truthy and is not the empty array |
| `FarcasterManifest.WithValidProperties` | app/.well-known/farcaster.json/route.js:1-12 | every surviving entry is an input entry with key and value unchanged; an array entry survives iff it is non-empty; any other entry survives iff it is truthy |
| `FarcasterManifest.WithValidPropertiesKeepsOrder` | app/.well-known/farcaster.json/route.js:4-11 | the surviving entries keep their relative order |
| `FarcasterManifest.WithValidPropertiesIdempotent` | app/.well-known/farcaster.json/route.js:4-11 | pruning a pruned object changes nothing |
| `FarcasterManifest.LookupWithValidProperties` | app/.well-known/farcaster.json/route.js:4-11 | reading a key of the pruned object gives the original value if that entry survives, and nothing otherwise |
| `FarcasterManifest.RequestOrigin` | app/.well-known/farcaster.json/route.js:17-29 | a non-empty URL origin wins; otherwise `proto://host` with host the x-forwarded-host header, else the host header, and proto the x-forwarded-proto header, else "https"; undefined exactly when neither the origin nor a host header is set; never the empty string |
| `FarcasterManifest.EffectiveUrl` | app/.well-known/farcaster.json/route.js:31 | URL is NEXT_PUBLIC_URL when set and non-empty, otherwise the request origin |
| `FarcasterManifest.AssetUrl` | app/.well-known/farcaster.json/route.js:34-35 | the override variable when set, else URL plus the asset path when URL is set, else undefined |
| `FarcasterManifest.FrameProperties` | app/.well-known/farcaster.json/route.js:43-59 | the frame literal has thirteen entries whose keys are, in order, version, name, subtitle, description, screenshotUrls, iconUrl, homeUrl, webhookUrl, primaryCategory, tags, ogTitle, ogDescription, ogImageUrl |
| `FarcasterManifest.FramePropertyKeysUnique` | app/.well-known/farcaster.json/route.js:43-59 | the frame literal names each key once |
| `FarcasterManifest.FrameLookup` | app/.well-known/farcaster.json/route.js:43-59 | each key of the frame literal reads, in the served frame, as its value when valid and is absent otherwise |
| `FarcasterManifest.ServeManifest` | app/.well-known/farcaster.json/route.js:37-60 | every served frame entry is valid (non-empty array or truthy); the account association has exactly three entries, whose header, payload and signature keys read as the FARCASTER_HEADER, FARCASTER_PAYLOAD and FARCASTER_SIGNATURE values, undefined when unset |
| `FarcasterManifest.FrameHasVersion` | app/.well-known/farcaster.json/route.js:44 | the served frame always has version "1" |
| `FarcasterManifest.FrameHasName` | app/.well-known/farcaster.json/route.js:45 | the name is the project-name variable when set, else "Base Buddies" |
| `FarcasterManifest.FrameSubtitle` | app/.well-known/farcaster.json/route.js:46 | the subtitle is present exactly when its variable is set and non-empty |
| `FarcasterManifest.FrameHasDescription` | app/.well-known/farcaster.json/route.js:47 | the description is its variable when set, else the built-in text |
| `FarcasterManifest.FrameOmitsScreenshotUrls` | app/.well-known/farcaster.json/route.js:48 | the served frame never has screenshotUrls |
| `FarcasterManifest.FrameHomeUrl` | app/.well-known/farcaster.json/route.js:50 | homeUrl is URL when URL is set, and absent otherwise |
| `FarcasterManifest.FrameWebhookUrl` | app/.well-known/farcaster.json/route.js:51 | webhookUrl is URL + "/api/webhook" when URL is set, and absent otherwise |
| `FarcasterManifest.FrameHasTags` | app/.well-known/farcaster.json/route.js:53 | the served frame always has the five tags |
| `FarcasterManifest.FrameIconUrl` | app/.well-known/farcaster.json/route.js:34-49 | iconUrl is NEXT_PUBLIC_APP_ICON when set, else URL + "/icon.png" when URL is set, else absent |
| `FarcasterManifest.FrameOgImageUrl` | app/.well-known/farcaster.json/route.js:35-56 | ogImageUrl is NEXT_PUBLIC_APP_OG_IMAGE when set, else URL + "/og-image.png" when URL is set, else absent |

## Left out

- `toLowerCase` is modelled on ASCII letters only; Unicode case mapping is not modelled.
- String lengths count Dafny characters (Unicode scalar values), where JavaScript counts UTF-16 code units; the two agree on the ASCII hex addresses `formatAddress` receives.
- `colors[category]` is modelled as a lookup in a five-key map; JavaScript's inherited object keys (such as `toString`) are not modelled.
- The optional `primaryCategory`, `ogTitle` and `ogDescription` entries of the frame are covered by the general `FarcasterManifest.FrameLookup` statement rather than by one lemma each.
- `FarcasterManifest.RequestOrigin`: `new URL(request.url).origin` is a parameter (`None` when the URL does not parse); header names are the lower-case keys of a map, so HTTP's case-insensitive header matching is not modelled.
- `Response.json` (a library call) is not modelled: the descriptor is a value, and JSON serialisation, which drops `undefined` account-association fields, is left out.
- `getTimeLeft` and `isChallengeActive` of the challenge detail page (app/challenge/[id]/page.js:31-49): outside the modelled helpers.
- The unused `sortBy` state: it is set but never applied to the list, so no sorting exists to model.
- Wallet connect and disconnect handlers and the `useEffect` frame-ready calls: asynchronous wallet and library side effects.
- Rendering, routing and the mock data of the dashboard, create and challenge pages, the navigation bar, layouts and providers: display only, apart from the two challenge-page helpers named above.
- The contract hooks (`lib/useContract.js`, `lib/contract.js`): thin wrappers over an ABI that is not part of this model.
- The webhook endpoint: an HTTP logging passthrough.
