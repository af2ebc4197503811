# Twitch VOD and live proxy: a Dafny model of its playlist handling

The system has two back ends with the same purpose. One is an Express server
(`server.js`), the other a Cloudflare worker (`worker.js`). Both let a browser
play Twitch VODs and live streams. Each one:

- asks Twitch for a playback token;
- builds the usher master-playlist URL from it;
- parses the master playlist into a `{ label: url }` object of qualities;
- proxies playlists, rewriting every media line so the player comes back
  through the proxy.

When Twitch refuses a token for a VOD, the server has a second plan: it
probes the storage bucket behind the VOD's storyboard URL, quality by
quality.

This project models that core and proves what it does:

- `JsText` and `JsObject` model the JavaScript primitives the code relies on.
  - `JsText` covers `trim`, `split`/`join`, `includes`, `startsWith`,
    `lastIndexOf` and ASCII `toLowerCase`.
  - `JsObject` models a string-keyed object as an ordered list of entries.
    Assignment keeps a key's place. `delete` removes the entry.
    `Object.assign` is a run of assignments.
- `UriCodec` models `encodeURIComponent` over UTF-8. It also models the
  WHATWG form-urlencoded parser behind `URLSearchParams.get`. The proofs
  show that every wrapped link decodes back to the link it wraps.
- `Playlist` is the master-playlist scan both back ends share:
  - the two regular expressions, read leftmost-first;
  - the variant label, which is the `VIDEO` name with its resolution and
    becomes `Source (Best)` for `chunked`;
  - the `lastInfo` state machine that pairs a `#EXT-X-STREAM-INF` tag with
    the next `http` line.
- `Twitch` models name normalisation (`trim().toLowerCase()`) and the usher
  URLs.
- `ServerStoryboard`, `ServerProxy`, `ServerLive` and `ServerVod` model the
  server:
  - `storyboardHack`, with its concurrent probes as a loop over any
    completion order;
  - the `/api/proxy` rewrite;
  - the `/api/get-live` parse loop;
  - the `/api/get-m3u8` Plan A / Plan B decision.
- `WorkerParse`, `WorkerProxy`, `WorkerHttp` and `WorkerRoutes` model the
  worker:
  - `parseM3U8`, as its two loops with in-place `delete` and as the ranking
    it computes (a stable permutation ordered by the first matching name);
  - `handleProxy` with its `isVod` flag;
  - `handleGetM3U8`, `handleGetLive`, `jsonError` and `jsonResponse`;
  - the top-level `fetch` dispatch.

Network calls, GraphQL answers and clocks are never performed. Their results
are parameters of the model:

- the token (`None` for `null`); in the worker, whose token helpers have no
  `catch`, the lookup itself may also reject;
- the fetched text, or whether the fetch threw;
- the answer of each `checkLink` probe, as a function `probe`;
- the order in which the probes complete.

The loops the source writes are Dafny methods, each proved equal to a
specification function, and the properties are lemmas about those functions:

- the server's `forEach` over the playlist lines;
- the worker's two `forEach` phases and its ranking loops;
- the storyboard's probe callbacks and its sorting loop.

## Model

| member | source | states |
|---|---|---|
| JsObject.Keys | worker.js:188 | `Object.keys` lists the key of every entry, in entry order |
| JsObject.HasKeyIff | worker.js:188 | a key is present exactly when it is among `Object.keys` |
| JsObject.Get | worker.js:182 | a lookup is `undefined` exactly when the key is absent, and otherwise returns a stored entry's value |
| JsObject.Put | worker.js:182 | assigning an existing key keeps every key in place; assigning a new key appends it; the key then reads the new value |
| JsObject.PutGetOther | worker.js:182 | assigning one key leaves every other key's value unchanged |
| JsObject.PutUnique | worker.js:182 | assignment never duplicates a key |
| JsObject.Delete | worker.js:188 | `delete` of an absent key changes nothing; of a present key it removes exactly one entry |
| JsObject.DeleteGone | worker.js:188 | after `delete` the key is absent |
| JsObject.DeleteGetOther | worker.js:188 | `delete` leaves every other key's value unchanged |
| JsObject.DeleteMiddle | worker.js:188 | deleting the first holder of a key removes exactly that entry and keeps the order of the rest |
| JsObject.GetUnique | worker.js:188 | in an object with unique keys, each entry is what its key looks up |
| JsObject.GetInPrefix | worker.js:189 | a key present in the first part of an object is looked up there |
| JsObject.GetPastPrefix | worker.js:189 | a key absent from the first part of an object is looked up in the rest |
| JsObject.PutAllAppend | worker.js:189 | assigning two runs of entries is assigning the first, then the second |
| JsObject.PutAllOne | worker.js:189 | a run of one entry is a single assignment |
| JsObject.PutAllFresh | worker.js:189 | assigning new, distinct keys appends them in order |
| JsObject.PutAllUntouched | worker.js:189 | a run of assignments to other keys leaves a key's value alone |
| JsObject.PutAllGetLast | server.js:284 | after a run of assignments a key holds the value of its last assignment |
| JsObject.PutAllKeepsKeys | worker.js:189 | a run of assignments never moves or removes a key already present |
| JsObject.PutAllUnique | worker.js:189 | a run of assignments never duplicates a key |
| JsObject.PutOrigin | worker.js:182 | every entry after an assignment was there before or is the assigned pair |
| JsObject.PutAllOrigin | worker.js:189 | every entry after a run of assignments was there before or is among the assigned pairs |
| JsText.TrimStart | server.js:159 | the longest suffix that does not start with white space; everything dropped is white space |
| JsText.TrimEnd | server.js:159 | the longest prefix that does not end with white space; everything dropped is white space |
| JsText.TrimShape | server.js:159 | `trim` cuts white space only, from both ends, and leaves none at either end |
| JsText.TrimBounds | server.js:159 | the bounds of what `trim` keeps: white space before and after, and the string is their concatenation |
| JsText.TrimIdentity | server.js:159 | a string without white space at its ends is left unchanged |
| JsText.TrimPadded | server.js:159 | white-space padding around a trimmed string is removed exactly |
| JsText.TrimAround | server.js:240 | white space added around any string does not change its trim |
| JsText.TrimStartPadded | server.js:159 | leading white space is dropped up to the first other character |
| JsText.TrimEndPadded | server.js:159 | trailing white space is dropped back to the last other character |
| JsText.TrimIdempotent | server.js:159 | trimming twice is trimming once |
| JsText.TrimEmptyIff | server.js:161 | a line trims to `""` exactly when it is all white space |
| JsText.TrimKeeps | server.js:159 | trimming introduces no character |
| JsText.ContainsIff | server.js:148 | `includes` holds exactly when the pattern occurs at some index |
| JsText.ContainsInfix | server.js:148 | a string contains any piece it is glued from |
| JsText.ContainsPrefix | server.js:148 | a string contains whatever a prefix of it contains |
| JsText.ContainsStart | server.js:148 | a string contains whatever the string it starts with contains |
| JsText.ContainsSuffix | server.js:148 | a string contains whatever a suffix of it contains |
| JsText.ContainsChar | server.js:148 | a one-character pattern occurs exactly when the character is an element |
| JsText.Split | server.js:158 | `split('\n')` gives at least one piece, no piece holds the separator, and joining the pieces gives the input back |
| JsText.SplitJoin | server.js:169 | splitting the join of separator-free pieces gives the pieces back |
| JsText.SplitNoSep | server.js:158 | a string without the separator splits into itself alone |
| JsText.JoinedLineCount | server.js:158-169 | joining separator-free lines and splitting again keeps the line count |
| JsText.LastIndexAfter | server.js:155 | `lastIndexOf(c) + 1` is 0 when `c` is absent, follows an occurrence of `c` otherwise, and no `c` comes after it |
| JsText.DirectoryOf | server.js:155 | the base URL is a prefix of the target that ends in `/` (or is empty), and no `/` follows it |
| JsText.LowerChar | server.js:240 | upper-case ASCII letters move to lower case; every other character stays |
| JsText.ToLower | server.js:240 | `toLowerCase` keeps the length and maps each character independently |
| JsText.ToLowerIdempotent | server.js:240 | a lower-cased string has no upper-case letter, and lower-casing it again changes nothing |
| JsText.ToLowerSpace | server.js:240 | a string is all white space exactly when its lower-cased form is |
| Playlist.KindOf | server.js:161 | a trimmed line is blank exactly when empty and a tag exactly when it starts with `#`; anything else is a URI |
| Playlist.DigitRun | server.js:270 | the greedy `\d+` run from an index: all digits, and ended by the end or a non-digit |
| Playlist.QuoteFreeRun | server.js:271 | the greedy `[^"]+` run from an index: no quote, and ended by the end or a quote |
| Playlist.ResolutionSlice | server.js:270 | two non-empty digit runs around `x` form a `WxH` capture |
| Playlist.QuoteFreeSlice | server.js:271 | a non-empty quote-free run is a valid `VIDEO` capture |
| Playlist.MatchAt | server.js:270-271 | a match at an index captures a `WxH` text for the resolution pattern and a non-empty quote-free text for the `VIDEO` pattern |
| Playlist.LeftmostFrom | server.js:270-271 | the first index from a start where the pattern matches, with no match before it |
| Playlist.FindIsLeftmost | server.js:270-271 | `line.match(re)` is `null` exactly when no index matches, and otherwise is the capture at the leftmost matching index |
| Playlist.VideoName | worker.js:177 | the `VIDEO` capture or `Inconnue` is never empty |
| Playlist.FixedLabelsPlain | server.js:278 | neither `Source (Best)` nor `Inconnue` mentions `chunked` |
| Playlist.Composed | server.js:275 | the name with its resolution starts with the name |
| Playlist.VariantLabel | worker.js:175-180 | a variant's label is non-empty and never mentions `chunked` |
| Playlist.LabelFormation | server.js:273-280 | a `chunked` name always becomes `Source (Best)`; any other label starts with the name; a tag without captures is labelled `Inconnue` |
| Playlist.AbsoluteLinkOfRelative | server.js:165 | a relative URI line is appended to the target URL up to and including its last `/` |
| Playlist.LinkIsNoTag | server.js:267-281 | an `http` line is never a variant tag, so the order of the two tests does not matter |
| Playlist.FoldAppend | server.js:266 | scanning two runs of lines is scanning the first, then the second from the state it leaves |
| Playlist.FoldSnoc | server.js:266 | one more line is one more step of the scan |
| Playlist.FoldNext | server.js:266 | the state after `i + 1` lines is one step after the state after `i` lines |
| Playlist.IgnoredLine | server.js:266-288 | a line that is neither a variant tag nor an `http` line can be deleted without changing the result |
| Playlist.FoldIsPairing | server.js:266-288 | the scan is the list of (label, link) pairs it records, assigned one after another to the starting object |
| Playlist.PairingAppend | server.js:266-288 | the pairs of two runs of lines are the pairs of the first, then those of the second from the pending label left over |
| Playlist.InertLines | server.js:266-288 | lines that are neither tags nor links record nothing and keep the pending label |
| Playlist.PendingMeetsLink | server.js:283-285 | a pending label is paired with the next `http` line across lines that change nothing |
| Playlist.RecordedPair | server.js:267-286 | nothing is lost: a variant tag followed by an `http` line, with only inert lines between, records the tag's label with that link |
| Playlist.PairingAttested | server.js:267-286 | nothing is invented: every recorded pair has a non-empty label that is the initial one or some tag's label, and its link is an `http` line of the input |
| Playlist.AttestedTail | server.js:266-288 | a pair attested by the lines after the first is attested by the whole input |
| ServerLive.ParseLive | server.js:261-288 | the `forEach` loop ends with exactly the object the specification scan produces |
| ServerLive.LiveLinksContents | server.js:262-288 | the links object starts with the `Auto (Multi-qualités)` entry, which keeps the master URL unless a variant uses that label; keys are unique; each label holds its last link; every entry is the master entry or a recorded pair |
| ServerLive.MasterKept | server.js:262 | the master entry keeps its URL unless a recorded pair has its label |
| ServerLive.LastPairWins | server.js:284 | every label maps to the link recorded last under it |
| ServerLive.GetLive | server.js:236-297 | a missing or empty name answers 400; otherwise no token answers 404; otherwise `best` is the master URL of the normalised name and the links are the parsed playlist, or only `Auto (Live)` when the fetch throws |
| ServerProxy.ProxiedShape | server.js:168 | a proxied link is a single line starting with `/api/proxy?`, and its `url` parameter decodes back to the full link |
| ServerProxy.RewriteLineOneLine | server.js:158-168 | no rewritten line holds a line break |
| ServerProxy.RewriteKeepsLines | server.js:158-169 | splitting the rewritten playlist gives the rewritten lines one for one, so the line count is kept |
| ServerProxy.RewriteLineKind | server.js:159-161 | a rewritten line has the kind of the trimmed input line; blank and tag lines come out trimmed |
| ServerProxy.ProxiedLinkRoundTrip | server.js:165-168 | every URI line becomes a proxy URL whose `url` parameter is the absolute link of that line |
| ServerProxy.ProxyRoute | server.js:134-193 | 400 exactly without a URL; a URL containing `.m3u8` gets the rewritten playlist exactly when its text was fetched; any other URL whose stream was fetched streams with the upstream content type; a failed fetch answers 500 |
| ServerStoryboard.QualityOrderDistinct | server.js:13-24 | the quality names are pairwise distinct |
| ServerStoryboard.FirstMention | server.js:101 | `findIndex` returns the first segment that mentions `storyboards`, or none |
| ServerStoryboard.StorageIdOfPathname | server.js:99-104 | a pathname starting with `/` never has its first mention at index 0, so the id is the segment just before the mention |
| ServerStoryboard.Candidate | server.js:110 | a probed URL is never empty, so a stored link is always truthy |
| ServerStoryboard.ProbeAll | server.js:109-116 | whatever order the probes complete in, the unsorted object maps each quality to its candidate URL exactly when the probe succeeded |
| ServerStoryboard.SortByOrder | server.js:118-123 | the sorting loop yields the successful qualities in quality order |
| ServerStoryboard.StoryboardHack | server.js:93-128 | `storyboardHack` resolves to the specification answer whatever the probes' completion order |
| ServerStoryboard.ProbedContents | server.js:109-123 | the result holds exactly the successful qualities, each mapped to its candidate URL, in strictly increasing quality order |
| ServerStoryboard.StoryboardNull | server.js:94-127 | the answer is `null` exactly when the URL is empty, does not parse, has no `storyboards` segment or no probe succeeds; otherwise it is non-empty |
| ServerStoryboard.ProbedEmpty | server.js:124 | no entry comes out exactly when no probe succeeds |
| ServerVod.PlanA | server.js:317-325 | Plan A answers exactly when there is a token and the official playlist is a string containing `#EXTM3U` with a non-throwing status; the answer is that URL under `Auto (Officiel)` |
| ServerVod.PlanBOnlyOtherwise | server.js:318-328 | once Plan A succeeds, the storyboard inputs cannot change the answer |
| ServerVod.StoryboardBest | server.js:328-334 | a storyboard answer's `best` is its first link, which has the best quality found; every link is a successful probe; `info` names the owner |
| ServerVod.NotFoundIff | server.js:312-337 | the 404 comes exactly when Plan A fails and Plan B has no metadata, no seek-preview URL or no result |
| Twitch.NormalizeLogin | server.js:240 | a normalised name has no white space at its ends and no upper-case letter, and is no longer than the input |
| Twitch.LowerKeepsTrimmed | server.js:240 | lower-casing keeps a trimmed string trimmed |
| Twitch.NormalizeIdempotent | worker.js:69 | normalising twice is normalising once |
| Twitch.NormalizePadding | worker.js:69 | white space around a name does not change its normal form |
| Twitch.NormalizeCaseBlind | worker.js:69 | a name and its lower-cased form normalise alike |
| Twitch.VodMasterUrlShape | worker.js:98 | a VOD master URL contains `/vod/` and `.m3u8`, so both proxies treat it as a playlist and the worker as a VOD |
| Twitch.LiveMasterUrlShape | server.js:249 | a live master URL contains `.m3u8` |
| UriCodec.Utf8Char | worker.js:129 | a character encodes to 1 to 4 bytes, and to one byte exactly when it is ASCII |
| UriCodec.Utf8EncodeAppend | worker.js:129 | UTF-8 encoding distributes over concatenation |
| UriCodec.Utf8TwoDecodes | worker.js:111 | decoding the two-byte encoding of a character gives it back, followed by the decoding of the rest |
| UriCodec.Utf8ThreeDecodes | worker.js:111 | the same for three-byte encodings |
| UriCodec.Utf8FourBytes | worker.js:111 | a supplementary character's four bytes are a valid sequence whose value is the character |
| UriCodec.Utf8FourDecodes | worker.js:111 | the same round trip for four-byte encodings |
| UriCodec.Utf8CharDecodes | worker.js:111 | decoding any character's encoding gives it back, followed by the decoding of the rest |
| UriCodec.Utf8RoundTrip | worker.js:111 | UTF-8 decoding inverts UTF-8 encoding on every string |
| UriCodec.HexDigit | worker.js:129 | escapes use the digits `0-9` and upper-case `A-F` |
| UriCodec.PercentBytes | worker.js:129 | each byte becomes three characters |
| UriCodec.PercentBytesAlphabet | worker.js:129 | escapes use only the encoded alphabet |
| UriCodec.EncodedAlphabet | worker.js:129 | `encodeURIComponent` output uses only unescaped characters and `%` |
| UriCodec.EncodedLacks | worker.js:129 | a character outside that alphabet, such as `&`, `=`, `+` or a line break, never appears in encoded text |
| UriCodec.EncodeIdentityIff | worker.js:129 | encoding leaves a string unchanged exactly when all its characters are unescaped |
| UriCodec.EncodeLength | worker.js:129 | encoding never shortens a string |
| UriCodec.HexByteValue | worker.js:111 | a hexadecimal digit's value is below 16 |
| UriCodec.ReplacePlus | worker.js:111 | `+` becomes a space and every other byte is kept |
| UriCodec.SplitBytes | worker.js:111 | a query string splits into at least one piece |
| UriCodec.IndexOfByte | worker.js:111 | the first `=` of a piece, or its end, with no `=` before it |
| UriCodec.AsciiBytes | worker.js:111 | the UTF-8 of ASCII text is its character codes |
| UriCodec.EncodedIsAscii | worker.js:129 | encoded text is ASCII |
| UriCodec.PercentByteDecodes | worker.js:111 | percent-decoding one escape gives its byte back |
| UriCodec.PercentBytesDecode | worker.js:111 | percent-decoding a run of escapes gives its bytes back |
| UriCodec.EncodeCharDecodes | worker.js:111 | percent-decoding an encoded character gives its UTF-8 bytes |
| UriCodec.PercentRoundTrip | worker.js:111 | percent-decoding an encoded component gives the UTF-8 of the original |
| UriCodec.ReplacePlusIdentity | worker.js:111 | text without `+` is unchanged by the plus rule |
| UriCodec.EncodedLacksPlus | worker.js:111 | encoded text holds no `+`, so the form decoder's plus rule never touches it |
| UriCodec.ComponentRoundTrip | worker.js:111 | the form decoder turns an encoded component back into the original string |
| UriCodec.PlainComponent | worker.js:111 | a plain ASCII name without escapes decodes to itself |
| UriCodec.SplitBytesNoSep | worker.js:111 | a query without `&` is one piece |
| UriCodec.SplitBytesAt | worker.js:111 | a query splits at its first `&` |
| UriCodec.IndexOfByteAt | worker.js:111 | a piece is cut at its first `=` |
| UriCodec.AsciiLacks | worker.js:111 | a character missing from ASCII text is missing from its bytes |
| UriCodec.PieceBytes | worker.js:129 | the bytes of `name=value` are the name's bytes, `=`, then the value's bytes |
| UriCodec.NameBytes | worker.js:129 | a plain name holds neither `&` nor `=` |
| UriCodec.EncodedBytes | worker.js:129 | an encoded value holds no `&` |
| UriCodec.ParameterPiece | worker.js:129 | `name=<encoded value>` is a non-empty piece without `&` that parses to the name and the original value |
| UriCodec.QueryOneParam | server.js:168 | a query of one encoded parameter parses to exactly that name and value |
| UriCodec.JoinedBytes | worker.js:129 | the bytes of `a&b` are those of `a`, `&`, then those of `b` |
| UriCodec.PairsOfTwo | worker.js:129 | two `&`-free pieces joined by `&` parse to their two pairs |
| UriCodec.QueryTwoParams | worker.js:129 | a query of two encoded parameters parses to the two names and original values, in order |
| WorkerHttp.CommonHeadersUntyped | worker.js:8-13 | the common headers carry no `Content-Type` |
| WorkerHttp.CommonAllowsAny | worker.js:9 | the common headers allow any origin |
| WorkerHttp.WithType | worker.js:137 | spreading the common headers and adding a content type appends it, and keeps every other header |
| WorkerHttp.JsonError | worker.js:197-199 | `jsonError` answers the given status (400 by default) with `{ error }`, a JSON content type and the common headers |
| WorkerHttp.JsonResponse | worker.js:193-195 | `jsonResponse` answers 200 with the data, a JSON content type and the common headers for every other header |
| WorkerParse.TierFrom | worker.js:188 | the first name from a position on that the key mentions, case-insensitively, with none before it |
| WorkerParse.TierOf | worker.js:188 | a key leaves the unsorted object at the first name of the order it mentions, or stays there to the end |
| WorkerParse.ParseM3U8 | worker.js:169-191 | `parseM3U8` returns exactly the specification object: `Auto` first, then the ranked variants |
| WorkerParse.CollectVariants | worker.js:170-185 | the `forEach` over the lines collects exactly the scan's pairs, assigned to an empty object |
| WorkerParse.SortByOrder | worker.js:186-189 | the loops over the order followed by `Object.assign` assign the ranked variants onto the starting object |
| WorkerParse.RankOfAgrees | worker.js:188 | the rank function matches the order: a key at rank `t` mentions name `t` and none before it |
| WorkerParse.MoveAllTiers | worker.js:188 | the outer `forEach` moves ranks `0 .. n-1` to `sorted` and leaves the unmatched keys in `unsorted`, in order |
| WorkerParse.TierRound | worker.js:188 | one turn of the outer loop moves exactly the next rank |
| WorkerParse.MoveTier | worker.js:188 | one pass over the key snapshot moves the keys of one rank, in order, and deletes them from `unsorted` |
| WorkerParse.MoveStepTaken | worker.js:188 | a key of the current rank joins the moved entries and leaves the kept ones |
| WorkerParse.MoveStepKept | worker.js:188 | a key of a worse rank stays in place |
| WorkerParse.MoveTaken | worker.js:188 | moving one key is a lookup, an assignment and a `delete` of exactly that entry |
| WorkerParse.UnsortedUnique | worker.js:182 | the collected object has unique keys |
| WorkerParse.SplitTier | worker.js:188 | one rank and the ranks after it hold the same entries as the ranks from that rank on |
| WorkerParse.TiersAndRest | worker.js:188-189 | the moved ranks and the unmatched rest together hold exactly the collected entries |
| WorkerParse.RankedPermutation | worker.js:187-189 | the ranking is a permutation: no variant is lost or duplicated |
| WorkerParse.TiersSorted | worker.js:188 | the moved entries come in non-decreasing rank |
| WorkerParse.RankedOrdered | worker.js:187-189 | better ranks come first: the ranks along the result never decrease, and unmatched keys come last |
| WorkerParse.AtTierAppend | worker.js:188 | picking a rank out of two runs is picking it out of each |
| WorkerParse.AtTierOfTiers | worker.js:188 | the moved ranks contain exactly the entries of each moved rank |
| WorkerParse.RankedStable | worker.js:188-189 | the ranking is stable: within every rank, unmatched keys included, entries keep their order |
| WorkerParse.TiersUnique | worker.js:188 | the moved entries have unique keys |
| WorkerParse.TierJoinUnique | worker.js:188 | moving one more rank repeats no key |
| WorkerParse.RankedUnique | worker.js:187-189 | the ranked entries have unique keys |
| WorkerParse.EntryIsLookup | worker.js:189 | an entry of a uniquely keyed object is what its key looks up |
| WorkerParse.PermutedLookup | worker.js:189 | assigning any permutation of the variants onto the starting object looks up like the variants, and like the start elsewhere |
| WorkerParse.MasterThenRanked | worker.js:186-189 | the result starts with the master key and has unique keys; every other key has its collected link; the master key has the master URL unless a variant uses it |
| WorkerParse.MasterThenRankedShape | worker.js:186-189 | when no variant uses the master key, the result is the master entry followed by the ranked variants |
| WorkerParse.WorkerLinksContents | worker.js:169-191 | the returned object: `Auto` first, unique keys, every label with its collected link, `Auto` with the master URL unless a variant took that label |
| WorkerParse.WorkerLinksShape | worker.js:186-190 | without an `Auto` variant, the result is `Auto` then the ranked variants |
| WorkerProxy.ParamsPlain | worker.js:129 | `url` and `isVod` are plain parameter names |
| WorkerProxy.FlagPlain | worker.js:129 | `true` and `false` need no escaping |
| WorkerProxy.WrappedQueryParses | worker.js:129 | the wrapped query parses to `url` and then `isVod`, with the link and the flag as values |
| WorkerProxy.WrappedOneLine | worker.js:129 | a wrapped link holds no line break when the worker's address has none |
| WorkerProxy.WrappedPieces | worker.js:129 | a wrapped link is the worker base, `?`, and the wrapped query |
| WorkerProxy.WrappedParams | worker.js:129 | a wrapped link starts with the worker route and its query yields the link and the flag |
| WorkerProxy.WrappedLineRoundTrip | worker.js:126-131 | a wrapped line's `url` parameter is the line's absolute link and its `isVod` parameter the flag, so a VOD playlist stays a VOD when fetched again |
| WorkerProxy.LiveSegmentBare | worker.js:132 | a live segment bypasses the worker: it becomes its absolute link, unchanged when it already starts with `http` |
| WorkerProxy.FlagDecidesSegmentsOnly | worker.js:125-133 | the flag never changes blank or tag lines; nested playlists are wrapped whatever the flag; the two flags agree exactly on non-URI lines |
| WorkerProxy.WrappedDiffers | worker.js:129-131 | the two flags give different wrapped links |
| WorkerProxy.WrappedLength | worker.js:129 | a wrapped link's length is the base, 12 fixed characters, the encoded link and the flag |
| WorkerProxy.WrappedIsNotLink | worker.js:131 | a wrapped link never equals the link it wraps |
| WorkerProxy.RewriteKeepsLines | worker.js:123-134 | splitting the rewritten playlist gives the rewritten lines one for one, so the line count is kept |
| WorkerProxy.RewriteLineOneLine | worker.js:123-133 | no rewritten line holds a line break |
| WorkerProxy.BareLinkOneLine | worker.js:126 | an absolute link built from one-line parts is one line |
| WorkerProxy.StreamType | worker.js:143 | the upstream content type when it is non-empty, `video/MP2T` otherwise |
| WorkerProxy.HandleProxy | worker.js:110-145 | 400 exactly without a URL; a playlist URL gets the rewritten text with the HLS content type; other URLs stream with their type; it rejects exactly when the fetch it needs throws |
| WorkerProxy.ProxyCors | worker.js:112-144 | an answer carries `Access-Control-Allow-Origin: *` exactly when it is not the missing-URL answer |
| WorkerRoutes.VodAccepted | worker.js:92-108 | links exactly when the token lookup settles with a token and there is a 2xx answer whose text contains `#EXTM3U`; they are the parsed playlist with the master URL under `Auto` and as `best`, which the proxy treats as a VOD |
| WorkerRoutes.VodRefused | worker.js:96-167 | the handler rejects exactly when the token lookup rejects (the GraphQL helper has no `catch`) or, with a token, when the playlist fetch throws, and with that error's message; every other non-200 answer is the 404 `VOD introuvable ou Sub-only` |
| WorkerRoutes.HandleGetM3U8AsWritten | worker.js:163-167 | as written, every request with an id rejects, and only the missing-id 400 ever settles |
| WorkerRoutes.VodTokenNeverAsked | worker.js:165 | for a VOD with a token and a valid playlist, the intended handler answers 200 and the written one rejects |
| WorkerRoutes.OrElse | worker.js:87-88 | the fallback of an optional string keeps a present, non-empty string and gives the fallback otherwise |
| WorkerRoutes.LiveNameBlind | worker.js:69 | names that differ only in case and surrounding white space get the same live answer |
| WorkerRoutes.LiveAnswer | worker.js:74-89 | a 200 live answer needs a token and a fetched text; its links are the parsed playlist, `best` is the master URL (with the token percent-encoded), and the title is never empty |
| WorkerRoutes.LiveRefused | worker.js:67-161 | 400 without a name, a rejection with its message when the token lookup rejects, 404 `Offline` when it settles without a token, and 200 once both upstream calls succeed |
| WorkerRoutes.HandleGetVideos | worker.js:41-43 | without a name the answer is 400; otherwise it is what the rest of the handler gives |
| WorkerRoutes.ServerError | worker.js:33 | the `catch` answer is 500 with `{ error: message }` and the common headers |
| WorkerRoutes.Preflight | worker.js:17-19 | an `OPTIONS` request on any path is answered with the common headers and no body |
| WorkerRoutes.DispatchExact | worker.js:24-31 | each route path gets its handler's own promise and `/` its banner; 404 `Not Found` exactly for other paths (or a handler answering the same) |
| WorkerRoutes.PathsDistinct | worker.js:25-29 | the five route paths are pairwise distinct |
| WorkerRoutes.MissingParameter | worker.js:43-112 | a missing parameter answers 400: the JSON routes with `{ error }` and the common headers, the proxy with bare text |
| WorkerRoutes.AwaitCatches | worker.js:24-34 | with `await`, every rejection becomes the 500 answer carrying its message, and every other answer is unchanged |
| WorkerRoutes.RejectionEscapes | worker.js:24-34 | as written, a playlist fetch that throws under `/api/proxy` rejects the request instead of answering 500 |

The definitions the lemmas above speak about model these source lines
directly; they carry no contract of their own:

- `ServerVod.VodRoute`: server.js:312-338
- `ServerProxy.RewritePlaylist`: server.js:155-169
- `ServerStoryboard.StoryboardSpec`: server.js:93-128
- `ServerStoryboard.StorageId`: server.js:98-104
- `ServerStoryboard.Probed`: server.js:109-123
- `WorkerRoutes.HandleGetM3U8`: worker.js:92-108
- `WorkerRoutes.HandleGetLive`: worker.js:66-90
- `WorkerRoutes.Fetch` and `WorkerRoutes.FetchAwaited`: worker.js:16-35
- `WorkerProxy.RewritePlaylist`: worker.js:119-134
- `WorkerProxy.IsVod`: worker.js:114
- `WorkerParse.WorkerLinks`: worker.js:169-191
- `WorkerParse.Ranked`: worker.js:187-189
- `UriCodec.EncodeURIComponent`: worker.js:129-131 and server.js:168
- `UriCodec.QueryGet`: worker.js:41, 67, 93, 111 and 114

## Left out

- Network I/O is not modelled: the axios and `fetch` requests, GraphQL calls, reading and piping bodies, and the server's `express.static` and `sendFile` routes. Their results are parameters: tokens, fetched text, probe answers and stream content types. Random `Device-ID` headers and `console.log` output have no effect and are omitted.
- `getChannelVideos` and `/api/get-channel-videos` on the server are not modelled. Neither are `handleGetVideos`'s query building and pagination, nor the broadcast-settings query. Each only forwards a GraphQL answer. The worker's missing-name guard is modelled as `WorkerRoutes.HandleGetVideos`.
- `getAccessToken`, `getLiveAccessToken`, `getVodStoryboardData` and `checkLink` are left out. Only their outcomes enter the model, as a `Token` option, metadata and a `probe` function. The server's helpers catch and return `null`; the worker's `getLiveAccessToken` and `getVodAccessToken` go through `twitchGQL`, which has no `catch`, so their token is an upstream result that can also reject. `ServerVod.ValidStatus` keeps `validateStatus` as the boundary between an answer and a throw.
- Headers the server sets with `res.set` are not modelled. `ServerProxy.ProxyRoute` returns the kind of answer and its body or content type. For the worker, headers are modelled.
- The server's query string is parsed by Express, not `URLSearchParams`. The model uses the WHATWG form decoder for both. They agree for the single `url=<encoded>` parameter the rewrite produces, but repeated or bracketed parameters are outside the model.
- `ServerVod.StoryboardBest`: `metadata.owner` is taken to be present. A VOD without an owner makes the server throw inside the route, and that is not modelled.
- The server's live route reads `response.data` as text. A non-string body, where `split` throws, is folded into the fetch-failed case, which answers `Auto (Live)`.
- `toLowerCase` is modelled for ASCII letters only. Non-ASCII case mappings need Unicode tables this model does not carry.
- `QUALITY_ORDER` in the worker is declared but never read. `parseM3U8` ranks by its own `order` list, which is what `WorkerParse.Order` models.
- JavaScript's own ordering of integer-like object keys (`"1080"` before `"Auto"`) is not modelled. Labels from `VIDEO` names are taken to be ordinary string keys. `__proto__` as a key is not modelled either.
- The concurrency of `storyboardHack`'s probes is modelled as one sequential loop over an arbitrary completion order. Real interleaving inside each callback is not modelled; the callbacks only assign.
- WorkerProxy.RewriteKeepsLines: requires the worker's own address to have no line break, and, for bare live segments, the target URL too; otherwise a rewritten line could split in two. The worker's address comes from `new URL` and cannot hold one. The target URL is the decoded `url` query parameter, which a client can make hold a line break (`%0A`); such a request is outside this lemma. The proxy never produces one itself, because every link it wraps comes from a line without `\n`.
- `JsText.Split` and `JsText.Join` cover single-character separators only, which is all the code uses.

## Findings

| source | as written | input that shows it | evidently intended | confidence | as-written member | corrected member |
|---|---|---|---|---|---|---|
| worker.js:24-34 | `return handleX(url)` inside `try` returns the promise without awaiting it, so a rejection from a handler never reaches the `catch` | `GET /api/proxy?url=https://a/b.m3u8` with the upstream fetch throwing `network` | `return await handleX(url)`, so the `catch` answers 500 `{ error: "network" }` | not executed | WorkerRoutes.RejectionEscapes | WorkerRoutes.AwaitCatches |
| worker.js:165 | the GraphQL variables use the shorthand `vodID`, but the parameter is `vodId`, so building them throws a `ReferenceError` and every VOD request with an id rejects | `GET /api/get-m3u8?id=1` | `vodID: vodId`, so a token is fetched and a valid playlist answers 200 with its links | not executed | WorkerRoutes.HandleGetM3U8AsWritten | WorkerRoutes.VodAccepted |
