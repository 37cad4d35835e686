# Verified model of the ad server's algorithms

A Dafny model of the parts of the ad server that compute something: the template engine, the retry
heap for server-to-server callbacks, the sampling controller, the counter report, the targeting text,
the AES container, the matching of creatives, and the smaller arithmetic and randomised pieces. Each
file is one module; `dafny verify dfyconfig.toml` checks them all.

| file | what it models |
|---|---|
| `Macros`, `MacroMatching`, `Scanner`, `Templates` | the macro language of H5 templates, the scanner that cuts a template into pieces, its memo table, the base64 state of a template object |
| `Replace`, `ReplaceAgreement`, `ReplaceMeaning` | replacing macros over the pieces (fast) and over the text (slow), when the two agree, and what takes the place of each macro |
| `AdRequests`, `ReplaceAsking` | the indexed ads that answer a replacement, and the second request for creatives that an empty fast result makes |
| `SentinelSizes`, `BlankAds` | the sizes to which no render image comes near enough, and the ads that can leave nothing of a template |
| `GoHeap`, `Swaps` | Go's `container/heap` on a slice |
| `S2sHeap`, `S2sServe`, `S2sReplies`, `S2sWaiting` | the heap whose push may drop its item, the consumer beside its producers, what the answers of the endpoints decide, and how long a due item waits |
| `SampleCtrl`, `SampleDurations`, `SampleRuns`, `SampleJam` | the sampling controller: one step per lock or channel operation and per field access of every goroutine, but one for what the countdown does under the lock; how long the phases last; the runs that end a sample, and the states from which none does |
| `RetrievalReport` | the counters of a sampling minute and the top lists |
| `Targets`, `DnfReader`, `AffiliateTarget` | adding targets, printing them, reading them back whole from the grammar of the text, and in part with the affiliate's patterns |
| `AesContainer`, `AesLayout` | padding, size trailer, blocks and hexadecimal digits around a block cipher, and where each byte goes |
| `Images`, `ImageRules`, `Creatives`, `RenderRules`, `PageAd` | matching images, filtering and selecting creatives, their rules in whole numbers, filling the adapters of page ads |
| `Sampling` | `Shuffle`, `RandCopy`, `priorityCopy` |
| `TrafficDivider` | picking by weight |
| `Pacing` | clicks by minute against a threshold |
| `FileSize`, `FileSizeTexts` | printing and parsing file sizes, and the texts there are |
| `Bloom` | the package filter |
| `Text`, `GoInt`, `Floats`, `Options`, `Results` | Go's strings, integers, ratios, optional results and panics as far as the above need them |

Objects that the source updates in place are classes whose methods are proved against functions of
the old state; the laws are lemmas about those functions. Concurrent code is a step system, and its
laws hold in every reachable state. Random numbers, coin flips, the wall clock, replies of remote
hosts and the order in which a map is ranged over are inputs, so each law holds whatever they are.

## What the proofs found

- The fast and the slow replacement agree exactly for the maps that offer no text for a global image
  macro with a readable size and none for the empty key. Texts for `{$img_...}` keys do no harm, and the
  maps the server makes are all of this kind (`ServerMapsAgree`). For every other map some template and
  some ad tell the paths apart (`OtherMapsDisagree`).
- After an empty fast result the slow path asks for creatives again. Indexing gives every image a url
  (`FixPrefixIs`), and an ad whose render images have urls too never shows it: ReplaceTpl is the slow path
  for every template (`UrlsAgree`). Render images are read as they are, and nothing rules out one without a
  url. Then text or creative may be those of another draw, exactly if the template can vanish with some macro
  left to the creatives, the ad may give each such macro a creative without a text, and it may also give one
  of them a text or the last of them another creative (`AgreeExactly`). Under a rule there is such an ad
  exactly if any can leave nothing (`AgreeUnderExactly`); away from the ratio 65535 there always is, and
  under rule 1 only there (`AgreeUnderRule`).
- Even so the outcome is that of one asking, text and creative, for every indexed ad wherever some size left
  to the creatives has two sides (`OneAskingUnderExactly`). The exception needs an image of area -1, which is
  hypothetical: sides are not checked, but none is expected to be negative.
- `Top` of the retry heap shows the last slot, not the earliest item. A callback is still never made
  early, but the consumer can sleep past a due item, exactly when the last slot is not due and the root is
  (`SleepsPastDue`, reached in `DueItemMayWait`). No item is ever due more than fifteen seconds ahead
  (`NeverFarAhead`), so a sleep of that length ends at a heap without such a slot (`SleepIsBounded`).
- The sampling controller never panics, but it can be lost: a reader inside the lock while the ticker
  goroutine of Done wants it, or two readers inside while that goroutine waits. Both are reachable, the
  second by two status requests that overlap in Done, without any tick (`JamIsReachable`,
  `CrowdIsReachable`). From every other reachable state a run leads back to No, and from these none
  (`EndsUnlessLost`). Writers get no preference in the model. The preference of Go's lock only takes
  interleavings away, and none of those is needed by the runs that the proofs build.
- `Init` scans the template text as base64. On an object that was already decoded it scans raw text
  as if it were base64; that is harmless exactly if decoding does not change it (`ScannedAsBase64`). That
  case is hypothetical: the server updates templates of fresh objects only (src/ssp/ssp_info.go:990) and decodes them
  afterwards (src/ssp/ssp_info.go:1038).
- The affiliate's patterns are not anchored: a key that only ends in `country` would be read for it
  (`LongerKeyIsRead`). That input is hypothetical, for no key passed to AddTarget is such
  (`ServerTargetsAreReadable`). Versions go under the key `version`, so none is ever read back under
  `osv` (`VersionsAreNotRead`).
- `HasMatchedCreative` promises a creative exactly when the wanted ratio is 0.1 or more away from the
  sentinel 65535 and the size takes no image of area -1 (`FilterAgrees`); such an image fits where a side is
  missing, and is then taken by the flip of a coin.
- The comment on `img_rule` (src/http_context/http_context.go:428-433) allows ten per cent under the rules -2
  and 3; the code takes twenty, and so does the model.
- A divider whose weights are all zero compiles, and then every pick panics (`PanicsWithoutWeight`).
- The minute counter is right exactly if calls lag at most a minute behind the time of their request
  (`ExactWithinMinute`).
- The 700 clicks a minute are kept to by one controller for each instance. Every instance has two and
  replaces both every fifteen minutes; with two or more within a minute an ad can exceed its 700 by
  more than the requests under way for every fleet of at most 700 instances (`SharesKeep`). When the
  scaling service fails every controller has the whole 700, and only a single one keeps to it (`FailureKeeps`).
- A request recorded after the minute's report was made panics, having been counted by ad type in
  that report already (`RecordRequest`).
- `RandCopy` with a negative number draws every ad and then panics; `TestIndex` panics on an index past the
  end only if all before it are set.
- `FileSizeStr2Int` wraps around silently when the product leaves an int64 (`LargeTextWraps`).

## Model

| member | source | states |
|---|---|---|
| `MacroMatching.MacroIsBracketed` | `src/ssp/pos.go:11-37` | a macro has one opening and one closing brace, at its ends |
| `MacroMatching.MacroEndExact` | `src/ssp/pos.go:50-56` | ordered alternatives with greedy digits match at a place exactly the macro that stands there, if one does |
| `Scanner.MacrosAreWritten` | `src/ssp/pos.go:11-56` | the macros are the names of the list in braces behind a dollar sign, those for sizes with an underscore, digits, x and digits |
| `Scanner.NextMatch` | `src/ssp/pos.go:73-77` | the match found is the leftmost one, and none is found only where there is none |
| `Scanner.CutTemplate` | `src/ssp/pos.go:73-85` | the loop over splits and keys yields the pieces of the template |
| `Scanner.ScanIsWellCut` | `src/ssp/pos.go:61-89` | every key is a macro, no prefix holds one, and the last piece alone has no key |
| `Scanner.ScanIsLossless` | `src/ssp/pos.go:61-89` | the prefixes and keys put together are the template, and there is one piece more than macros |
| `Scanner.ScanIsUnique` | `src/ssp/pos.go:61-89` | no other cutting of the text is well cut |
| `Templates.TplTable.ScanTpl` | `src/ssp/pos.go:61-89` | the memo table answers what a fresh scan would answer if no digests collide; a text that does not decode leaves no entry |
| `Templates.TemplateObj.Init` | `src/ssp/ssp_info.go:408-444` | the text is the built-in one of the style, or the slot's own, or the empty page where there is none; the pieces are those of the text the template denotes, and the flag says whether there are any |
| `Templates.TemplateObj.Base64Encode` | `src/ssp/ssp_info.go:448-457` | the object is encoded, denotes the same text and stays in step with its pieces |
| `Templates.TemplateObj.Base64Decode` | `src/ssp/ssp_info.go:459-472` | the object holds the text it denotes and stays in step with its pieces |
| `Templates.ScannedAsBase64` | `src/ssp/ssp_info.go:436-444` | raw text scanned as base64 gives its own pieces if and only if decoding leaves it as it is |
| `Templates.RunsKeepText` | `src/ssp/ssp_info.go:448-472` | any sequence of encodings and decodings keeps the text, ends in it or in its encoding, and leaves a text that was never decoded as it was |
| `Replace.ReadSizeReads` | `src/raw_ad/replace.go:57` | the size read from a macro is the one written into it, if both numbers fit an int |
| `Replace.RawAdObj.Contact` | `src/raw_ad/replace.go:52-91` | the loop over the pieces, with its memory of replaced keys and the creative chosen last |
| `Replace.RawAdObj.ReplaceAll` | `src/raw_ad/replace.go:100-138` | the closure over the matches of the text, with the same memory |
| `Replace.RawAdObj.ReplaceTpl` | `src/raw_ad/replace.go:93-139` | the fast result if it is not empty, otherwise the slow one from the state the fast path left |
| `ReplaceAgreement.KeyAgrees` | `src/raw_ad/replace.go:55-88` | the two orders of tests treat one macro alike and leave the same memory |
| `ReplaceAgreement.FastIsSlow` | `src/raw_ad/replace.go:52-139` | for every template, map without texts for global sizes, and creatives: same output, same chosen creative |
| `ReplaceAgreement.OtherMapsDisagree` | `src/raw_ad/replace.go:55-72` | for every other map there are a template and an indexed ad on which the outputs differ |
| `ReplaceAgreement.ServerMapsAgree` | `src/raw_ad/raw_ad_obj.go:86-114` | with maps whose keys are fixed words of the H5 grammar, as the callers make them, the two paths agree on every template |
| `ReplaceAgreement.ReplaceTplIsSlow` | `src/raw_ad/replace.go:93-139` | the whole replacement is the slow one if that leaves some text, or if the creatives answer the same again |
| `AdRequests.FixPrefixIs` | `src/raw_ad/raw_ad.go:834-846` | the urls of an indexed ad's images are exactly those with a scheme; those without get https, and fixing them again changes nothing |
| `ReplaceAsking.VanishesExactly` | `src/raw_ad/replace.go:103-138` | some luck with an ad leaves no text if and only if the template can vanish and the ad may give each macro left to it a creative without one |
| `ReplaceAsking.AgreeExactly` | `src/raw_ad/replace.go:93-139` | for an ad and any luck the whole replacement gives the text and creative of the slow one, if and only if the template cannot vanish, or no macro is left to the creatives, or the ad cannot give each of them one without a text, or can do nothing else and has one such creative for the last |
| `ReplaceAsking.OneAskingExactly` | `src/raw_ad/replace.go:93-139` | for an ad and any luck the outcome is that of the first asking or of the second alone, if and only if it cannot both leave nothing and give nothing for every macro left to it |
| `BlankAds.UrlsAgree` | `src/raw_ad/replace.go:93-139` | for an indexed ad whose render images have urls the whole replacement is the slow one on every template |
| `BlankAds.AgreeUnderExactly` | `src/raw_ad/replace.go:93-139` | under a rule it is the slow one for all indexed ads if and only if the template cannot vanish, or no macro is left, or no indexed ad may give each one a creative without a text |
| `BlankAds.AgreeUnderRule` | `src/raw_ad/replace.go:93-139` | under rule 1 and under numbers that are no rule: if and only if the template cannot vanish, or no macro is left, or one has a size with two sides and a ratio within 1/20000 of 65535; under every rule nothing else protects |
| `BlankAds.OneAskingUnderExactly` | `src/raw_ad/replace.go:93-139` | under each rule, for all indexed ads, the outcome is that of one asking if and only if a template that can vanish leaves no macro or one whose size has two sides |
| `SentinelSizes.OffIsNearer` | `src/raw_ad/raw_ad.go:735-755` | for a size more than 1/20000 away from the ratio 65535 one of two render images is nearer than the sentinel |
| `SentinelSizes.AtIsNotNearer` | `src/raw_ad/raw_ad.go:735-755` | for any other size no render image whatever is |
| `ReplaceMeaning.SlowReplaces` | `src/raw_ad/replace.go:103-138` | nothing but the macros changes: a mapped one is replaced where it first stands and a global one always; the first unmapped size and every unmapped global size ask for the next creative, and the place of one that is found holds its domestic address if the country is CN and there is one, its other address if not; the last one found is remembered |
| `ReplaceMeaning.FastReplaces` | `src/raw_ad/replace.go:52-91` | the same of the fast path for every map, with global sizes offered before the map is looked at |
| `GoHeap.Slice.SiftUp` | `src/tpl/s2s_heap.go:109-113` | the loop of the library's `up`, also from the index before an empty slice |
| `GoHeap.Slice.SiftDown` | `src/tpl/s2s_heap.go:115-123` | the loop of the library's `down` |
| `GoHeap.UpRestores` | `src/tpl/s2s_heap.go:78-88` | `up` restores the heap order broken at one slot and keeps the elements |
| `GoHeap.DownRestores` | `src/tpl/s2s_heap.go:78-96` | `down` restores the heap order broken at one slot and keeps the elements |
| `GoHeap.TiesGoLeft` | `src/tpl/s2s_heap.go:115-123` | of two children due at the same time the left one goes up |
| `GoHeap.PushKeepsHeap` | `src/tpl/s2s_heap.go:82-88` | a push that appends keeps the heap and adds one element |
| `GoHeap.DroppedPushKeepsSlice` | `src/tpl/s2s_heap.go:82-88` | a push that appends nothing changes nothing, on an empty heap too |
| `GoHeap.PopServesLeast` | `src/tpl/s2s_heap.go:90-96` | what is popped is least, and the rest is a heap of the others |
| `S2sHeap.PushItemKeeps` | `src/tpl/s2s_heap.go:82-88` | an item is taken unless it has failed more than three times |
| `S2sHeap.PopItemServes` | `src/tpl/s2s_heap.go:90-96` | the item popped is due no later than any other, the last slot included |
| `S2sHeap.HeapWrapper.Push` | `src/tpl/s2s_heap.go:109-113` | the new slice, and that it is a heap |
| `S2sHeap.HeapWrapper.Pop` | `src/tpl/s2s_heap.go:115-123` | the item and the new slice, and that it is a heap |
| `S2sHeap.HeapWrapper.Top` | `src/tpl/s2s_heap.go:125-133` | the item in the last slot, or none |
| `S2sHeap.HeapWrapper.Drain` | `src/tpl/s2s_heap.go:149-155` | the inner loop ends; it calls only due items, drops only after four failures, keeps the bag of ids across heap, delivered and dropped, and spends one attempt a round; delivered are exactly the items whose call was answered well, in order, each with its attempt booked, and of the others those of four failures are dropped and the rest is back in the heap |
| `S2sHeap.AttemptsPermute` | `src/tpl/s2s_heap.go:82-96` | the attempts left do not depend on the order of the slice |
| `S2sServe.NeverEarlyNeverEmpty` | `src/tpl/s2s_heap.go:135-157` | in every run with any producers: no pop of an empty heap, no callback before its launch time |
| `S2sServe.AttemptsAreSpaced` | `src/tpl/s2s_heap.go:41-51` | the next attempt comes later than fifteen seconds for each earlier one after the creation |
| `S2sServe.NothingLostNothingDoubled` | `src/tpl/s2s_heap.go:41-157` | every item is in exactly one place, dropped only after exactly four failures, its launch time creation plus fifteen seconds a failure |
| `S2sServe.DueLeadsToCall` | `src/tpl/s2s_heap.go:149-155` | at the test of the inner loop a due item leads to the call of one due no later than any in the heap, and otherwise the loop ends |
| `S2sReplies.AnswersDecide` | `src/tpl/s2s_heap.go:41-76` | in every run an item is delivered if and only if its last callback succeeded, and then all before failed; elsewhere all failed, four for a dropped one; their number is its count and sets the next launch |
| `S2sWaiting.SleepsPastDue` | `src/tpl/s2s_heap.go:125-155` | in any run the consumer goes back to sleep over a due item if and only if the slot it saw is not due and the root is |
| `S2sWaiting.DueItemMayWait` | `src/tpl/s2s_heap.go:125-155` | from any start a run reaches that: a failed callback in the last slot, a newer item at the root |
| `S2sWaiting.NeverFarAhead` | `src/tpl/s2s_heap.go:41-51` | in every run every item, wherever it is, is due within fifteen seconds |
| `S2sWaiting.SleepIsBounded` | `src/tpl/s2s_heap.go:135-157` | whatever is pushed meanwhile, after fifteen seconds of sleep every item in the heap is due and the consumer goes to work on what it sees |
| `SampleCtrl.NextKeepsInv` | `src/status/ctrl.go:63-215` | every step of every goroutine keeps the invariant of fields, lock, ticker and channel |
| `SampleCtrl.NoPanic` | `src/status/ctrl.go:63-215` | none of the five panics on status, ticker and reset channel is reached, no nil ticker is read, no channel closed twice, and nothing sent on a nil one |
| `SampleCtrl.OneTicker` | `src/status/ctrl.go:63-169` | at most one ticker goroutine is live, and it is the one in the field |
| `SampleCtrl.SendsAreOnOpenChannel` | `src/status/ctrl.go:127-215` | a send is on the current reset channel, which is open |
| `SampleCtrl.StatusCycles` | `src/status/ctrl.go:63-175` | the status stays or moves to the next of No, Ready, Doing, Done, No |
| `SampleDurations.FieldsMove` | `src/status/ctrl.go:63-169` | status and seconds left change only when a tick is counted, a reset carried out or a phase entered, and how |
| `SampleDurations.PhaseStarts` | `src/status/ctrl.go:63-135` | a phase starts with 60 seconds in Doing, 300 in Done and those it was given in Ready |
| `SampleDurations.CallKeepsSeconds` | `src/status/ctrl.go:186-191` | the seconds of Ready are those of the request that found the controller idle |
| `SampleDurations.LastsUntil` | `src/status/ctrl.go:75-169` | in every run without a reset a phase lasts as long as fewer ticks were counted than there were seconds |
| `SampleDurations.PhaseLasts` | `src/status/ctrl.go:75-169` | whenever a phase is left without a reset, exactly as many ticks were counted as it started with |
| `SampleDurations.ReceiveIsInReset` | `src/status/ctrl.go:162` | a goroutine that takes a reset is then on the way to carry it out |
| `SampleDurations.ResetRestarts` | `src/status/ctrl.go:162-165` | when a received reset gives the lock back the status is Done with 300 seconds left |
| `SampleDurations.ResetLasts` | `src/status/ctrl.go:143-169` | from there the status stays Done in every run until 300 ticks were counted or another reset was carried out |
| `SampleDurations.ResetEnds` | `src/status/ctrl.go:143-169` | and the 300th tick leads to No |
| `SampleDurations.EndCleansUp` | `src/status/ctrl.go:148-158` | the step from Done to No closes the reset channel and takes ticker and channel out of the fields |
| `SampleJam.JamIsForever` | `src/status/ctrl.go:143-215` | a reader inside the lock while the last ticker wants it blocks both for good |
| `SampleJam.LostIsForever` | `src/status/ctrl.go:143-215` | from a lost state, of either kind, every continuation is lost and the status stays Done |
| `SampleJam.EndsUnlessLost` | `src/status/ctrl.go:63-215` | from a reachable state some run leads back to No if and only if it is not lost |
| `SampleJam.JamIsReachable` | `src/status/ctrl.go:63-215` | a run from the start leads into the jam |
| `SampleJam.CrowdIsReachable` | `src/status/ctrl.go:63-215` | a run from the start leads to two readers inside while the ticker waits, which is no jam yet |
| `RetrievalReport.CtxToReq` | `src/status/request.go:19-33` | the number requested is raised to the number filled, in the context too |
| `RetrievalReport.RetrievalReport.RecordRequest` | `src/status/retrieval_report.go:76-128` | the six maps after one request; it panics if and only if the report was made, and is then counted by ad type alone, in the report too |
| `RetrievalReport.MapsAgree` | `src/status/retrieval_report.go:29-128` | after any requests: equal totals by ad type and country on each platform, slots filled equal offers, filled within requested everywhere |
| `RetrievalReport.CountersAreTallies` | `src/status/retrieval_report.go:76-118` | each counter is the sum over the requests of its key and exists only if there are any |
| `RetrievalReport.AdTypeComesFirst` | `src/status/retrieval_report.go:76-128` | what a panic leaves of a request: its counter by ad type as for any request, and no other |
| `RetrievalReport.OffersAreServed` | `src/status/retrieval_report.go:113-127` | each offer's counter is how often requests other than promotions returned it |
| `RetrievalReport.PriorityQueue.Push` | `src/status/retrieval_report.go:137-145` | the queue stays a heap and gains the item |
| `RetrievalReport.PriorityQueue.Pop` | `src/status/retrieval_report.go:137-152` | the item popped has the most requests and the queue stays a heap of the others |
| `RetrievalReport.TakenAreTop` | `src/status/retrieval_report.go:163-167` | items taken most requested first are a top of the map under their own keys |
| `RetrievalReport.SetTop` | `src/status/retrieval_report.go:154-168` | for any order of ranging: exactly the wanted number of keys or all, each with its own counter, none below one left out |
| `RetrievalReport.TopCountries` | `src/status/retrieval_report.go:184-196` | the top twenty countries, and three more that are listed even without a counter |
| `RetrievalReport.RetrievalReport.PreReport` | `src/status/retrieval_report.go:170-217` | the four lists are tops of the maps as they were, the maps but those by ad type are dropped, and a second call changes nothing |
| `Targets.RawAdObj.AddTarget` | `src/raw_ad/raw_ad.go:801-831` | the targets after one call |
| `Targets.RawAdObj.GenDnf` | `src/raw_ad/raw_ad.go:875-897` | the text that the results on reading are about; without targets it stays what it was |
| `DnfReader.ReadsBack` | `src/raw_ad/raw_ad.go:875-897` | a reader of the grammar (brackets, "and", key, in or not in, braces, commas) gives back exactly the targets printed, if and only if no key holds a space, no value a comma or closing brace, and none is without values |
| `DnfReader.AddedTargetsAreRead` | `src/raw_ad/raw_ad.go:801-897` | so from plain calls of AddTarget: every condition is in the text, the ones no affiliate reads and every "not in" included |
| `Targets.TargetsAreConditions` | `src/raw_ad/raw_ad.go:801-831` | after any calls: unique keys, the "in" values if any were added and else the "not in" values, in the order of the calls they date from |
| `Targets.ValuesAreFirstSeen` | `src/raw_ad/raw_ad.go:815-824` | the values of a key are exactly those added, each once, in the order first added |
| `AffiliateTarget.GroupIsExact` | `src/affiliate/affiliate.go:19-27` | the group found behind a brace is the one the pattern describes, and one is found whenever there is one |
| `AffiliateTarget.FindBehind` | `src/affiliate/affiliate.go:49-55` | in front of a brace only a text that ends in the pattern's head can belong to a match |
| `AffiliateTarget.FindInConjunction` | `src/affiliate/affiliate.go:49-55` | in a printed text the first "in" target whose key ends in the name and whose values fit is read, whatever stands around it |
| `AffiliateTarget.ParsedTarget.Parse` | `src/affiliate/affiliate.go:57-69` | the three value lists read, the first DEBUG taken out of the countries |
| `AffiliateTarget.CountriesAreReadBack` | `src/affiliate/affiliate.go:57-69` | exactly the "in" countries in order without the one DEBUG, if and only if they are upper-case words; "not in" countries are not read |
| `AffiliateTarget.LongerKeyIsRead` | `src/affiliate/affiliate.go:24` | a longer key that ends in the name would be read instead |
| `AffiliateTarget.ServerTargetsAreReadable` | `src/raw_ad/raw_ad.go:3097-3162` | none of the keys passed to AddTarget is one: all its calls print targets that the results on reading back are about |
| `AffiliateTarget.VersionsAreNotRead` | `src/raw_ad/raw_ad.go:3135-3144` | whatever those calls add, nothing is read back under `osv` |
| `AffiliateTarget.ValuesAreReadBack` | `src/affiliate/affiliate.go:49-55` | countries and versions are read back if and only if they fit the pattern |
| `AffiliateTarget.PlatformIsReadBack` | `src/affiliate/affiliate.go:25` | a platform is read back if and only if it is the only one and Android or iOS |
| `AffiliateTarget.AddedCountriesAreRead` | `src/raw_ad/raw_ad.go:801-897` | from any calls of AddTarget through the text to the countries read |
| `AesContainer.HexRoundTrip` | `src/aes/aes.go:56-72` | decoding the hexadecimal digits gives the bytes back |
| `AesContainer.SizeIsRead` | `src/aes/aes.go:36` | the zero-padded trailer is read as the number it was printed from |
| `AesContainer.BlocksRoundTrip` | `src/aes/aes.go:49-86` | deciphering block by block undoes ciphering block by block |
| `AesContainer.EncryptBytes` | `src/aes/aes.go:34-59` | the loops over padding and blocks, through one reused buffer, yield the container |
| `AesContainer.DecryptBytes` | `src/aes/aes.go:65-91` | the loop over blocks, its error cases and the final slice up to the capacity |
| `AesContainer.RoundTrip` | `src/aes/aes.go:34-91` | decrypting gives the text back for every key, padding and text below 10^16 bytes, and longer texts cannot be encrypted |
| `AesLayout.EncryptedIs` | `src/aes/aes.go:34-59` | every digit of a container: the text, random padding to whole blocks, its length in sixteen decimal digits, each block through the cipher on its own, two lower-case digits a byte |
| `AesLayout.DecryptedIs` | `src/aes/aes.go:65-91` | what any text is decrypted to: nothing if it is no digits or no whole blocks, else as many of the deciphered bytes as the last block says, zeros behind the end, a panic beyond the capacity |
| `ImageRules.RulesAre` | `src/raw_ad/raw_ad.go:88-129` | in whole numbers what fits under each rule: a fifth or a thousandth of the ratio, equal sides, twenty per cent on each side; under no other number anything, and without a side everything |
| `Images.OwnSizeFits` | `src/raw_ad/raw_ad.go:88-129` | an image fits its own size under every rule |
| `Images.RatioRulesScale` | `src/raw_ad/raw_ad.go:92-102` | the ratio rules look at nothing but the ratio wanted |
| `Images.RulesNest` | `src/raw_ad/raw_ad.go:463-492` | what the exact rule lets through the fuzzy ones do, and what those let through the widest ratio rule does |
| `Images.GetMaxMatchedImg` | `src/raw_ad/raw_ad.go:432-496` | the choice under given coin flips: a fitting image of the largest product of sides; nil only if no image of natural area fits; one of area -1 only by a flip, a smaller one never |
| `Images.FlipsReach` | `src/raw_ad/raw_ad.go:438-452` | the choices that some flips lead to are exactly the largest fitting images, and nil where none has a natural area |
| `Images.FlipSizes` | `src/raw_ad/raw_ad.go:450-490` | an image of area -1 fits a size without negative sides if and only if the size lacks a side |
| `Creatives.HasMatchedCreative` | `src/raw_ad/raw_ad.go:669-696` | the answer under given luck: yes if an image of natural area fits or a render image is within 0.1 of the ratio, and no unless one of those or an image of area -1 does; never without creatives |
| `Creatives.HasExactly` | `src/raw_ad/raw_ad.go:669-696` | the filter lets an ad through under some luck exactly when it may, and under any exactly when it must |
| `Creatives.RenderSizeReads` | `src/raw_ad/raw_ad.go:744-746` | a key of ten thousand times the width plus the height is read as that width and height |
| `RenderRules.RenderIs` | `src/raw_ad/raw_ad.go:757-765` | a render image has the sides of its key and its own text as url |
| `RenderRules.NearIs` | `src/raw_ad/raw_ad.go:684-694` | in whole numbers when a render image counts for the filter: ratios less than a tenth apart after adding one to each side |
| `RenderRules.PreferredIs` | `src/raw_ad/raw_ad.go:735-755` | in whole numbers when it is preferred to the best image and to another render image |
| `Creatives.NearestRender` | `src/raw_ad/raw_ad.go:743-755` | ranging over the render images takes each that is nearer than the one before |
| `Creatives.NearestTaken` | `src/raw_ad/raw_ad.go:743-755` | in any order that ends at a nearest render image below the limit, or none if none is below it |
| `Creatives.GetMatchedCreative` | `src/raw_ad/raw_ad.go:722-767` | the choice under given luck |
| `Creatives.LuckReaches` | `src/raw_ad/raw_ad.go:722-767` | the creatives chosen under some luck are exactly the best images, unless render images are strictly nearer to the ratio, and then exactly the nearest ones |
| `Creatives.ChosenBounds` | `src/raw_ad/raw_ad.go:722-767` | the choice is never nil if there is something to choose for sure, always if not even a flip finds anything |
| `Creatives.ChancyExactly` | `src/raw_ad/raw_ad.go:722-767` | some luck gives nil and some does not, if and only if an image of area -1 fits and nothing else can be chosen |
| `Creatives.FilterAgrees` | `src/raw_ad/raw_ad.go:669-767` | every ad that passes the filter under some luck gets a creative under any, if and only if the ratio is not within 0.1 of the sentinel and the size takes no image of area -1 |
| `PageAd.GetMatchedVideo` | `src/raw_ad/raw_ad.go:699-719` | the first video with a url that is upright exactly if the size is, from those in the language or else in any; nil if and only if there is none |
| `PageAd.CanPlayIs` | `src/raw_ad/raw_ad.go:699-719` | there is a video if and only if one in the language, or in any if that has none, has a url and is upright exactly if the size is |
| `PageAd.ImageIsLast` | `src/raw_ad/pagead.go:243-261` | the image left is the choice for the size of the last image part, as if no other were there |
| `PageAd.MatchedAdapter` | `src/raw_ad/pagead.go:221-241` | under given luck an adapter matches if and only if every part can be read and is filled |
| `PageAd.MatchesExactly` | `src/raw_ad/pagead.go:221-241` | it matches under some luck exactly when each part may be filled, and under any exactly when each must |
| `PageAd.MatchedAdapters` | `src/raw_ad/pagead.go:204-218` | the adapters that match, each under its own luck, in order; none if title, description or icon is missing |
| `PageAd.RawAdObj.ChoseAdapterCreative` | `src/raw_ad/pagead.go:243-261` | the image and video chosen are those for the last part of their kind, or as before |
| `PageAd.MatchedIsFilled` | `src/raw_ad/pagead.go:221-261` | an adapter matched under any luck has every image and video it asks for chosen under any other, if and only if it never matches or its last image part can be filled for sure |
| `PageAd.FlipFreeIsSure` | `src/raw_ad/pagead.go:221-261` | if no image of area -1 fits an image part, an adapter matches always or never, and is filled |
| `Sampling.RunPermutes` | `src/util/util.go:429-432` | every run of swaps keeps the elements |
| `Sampling.DrawnAreLast` | `src/rank/rank.go:192-197` | the draws end up behind the rest, last draw first |
| `Sampling.DrawnReachesOnce` | `src/rank/rank.go:192-197` | every selection in every order comes of exactly one sequence of random numbers |
| `Sampling.ShuffleReachesOnce` | `src/util/util.go:424-433` | every permutation comes of exactly one sequence of random numbers |
| `Sampling.RunMovesPositions` | `src/util/util.go:424-433` | a run moves positions whatever the elements are, so the above holds of arrays with equal elements |
| `Sampling.Shuffle` | `src/util/util.go:424-433` | the array after the loop |
| `Sampling.Draw` | `src/rank/rank.go:192-197` | what is drawn and the array left behind |
| `Sampling.RandCopy` | `src/rank/rank.go:184-207` | all in order if too many are wanted, otherwise that many draws; for a negative number every ad is drawn and then it panics |
| `Sampling.DrawnPositions` | `src/rank/rank.go:192-197` | the draws stand at different positions, and the array keeps its elements |
| `Sampling.PriorityCopy` | `src/rank/rank.go:248-285` | the ads of the channel, made up to the number by draws from the others; a panic for a negative number |
| `Sampling.FilterInOrder` | `src/rank/rank.go:257-265` | the ads of the channel, and the others, keep their order and none is missing |
| `Sampling.PriorityIsPrefix` | `src/rank/rank.go:257-277` | exactly the number wanted, ads of the channel first and no other while there are any, none twice |
| `TrafficDivider.Search` | `src/util/traffic_divider.go:91` | the binary search stops where the list first reaches the number, on any list |
| `TrafficDivider.Divider.AddObj` | `src/util/traffic_divider.go:35-56` | the running sums grow by the weight; after compiling nothing changes |
| `TrafficDivider.Divider.Compile` | `src/util/traffic_divider.go:58-72` | the sums are divided by their total; errors change nothing |
| `TrafficDivider.Divider.GetObj` | `src/util/traffic_divider.go:85-93` | the object where the search stops, an error before compiling, a panic past the end |
| `TrafficDivider.NormalList` | `src/util/traffic_divider.go:66-70` | the list never falls and ends at exactly 1 |
| `TrafficDivider.ShareIsWeight` | `src/util/traffic_divider.go:66-70` | the interval of an object is as long as its share of the weights |
| `TrafficDivider.PickedOwns` | `src/util/traffic_divider.go:85-93` | for every number the search stays in range and stops at the one object whose interval holds it |
| `TrafficDivider.PanicsWithoutWeight` | `src/util/traffic_divider.go:66-92` | the search runs past the end if and only if all weights are zero |
| `Pacing.KeyInjective` | `src/pacing/pacing.go:65` | different ads or minutes of the hour have different keys |
| `Pacing.KeysAre` | `src/pacing/pacing.go:65` | two counters are one if and only if they are of the same ad and minute of the hour |
| `Pacing.PacingController.Add` | `src/pacing/pacing.go:64-79` | the map after the call, and the number returned is the counter |
| `Pacing.PacingController.OverCap` | `src/pacing/pacing.go:81-104` | whether the counter is there and above the threshold of the request |
| `Pacing.ThresholdIs` | `src/pacing/pacing.go:88-103` | which counts are over: times the instances more than the offer's own setting, else more than the pacing, twice that in CN |
| `Pacing.NewPacingController` | `src/pacing/pacing.go:30-62` | n shares are at most 700 and no larger share would be; when the service fails each instance has the whole 700 |
| `Pacing.CounterIsSum` | `src/pacing/pacing.go:64-79` | with calls at most a minute late, a counter is the sum added in the same minute of all time |
| `Pacing.ExactWithinMinute` | `src/pacing/pacing.go:64-79` | counters are right in all runs if and only if calls lag at most a minute |
| `Pacing.AdmitsExactly` | `src/pacing/pacing.go:81-104` | in every run a request is admitted if and only if its ad got no click in its minute or not so many that they are over |
| `Pacing.ClicksAreBounded` | `src/pacing/pacing.go:64-104` | in every run of a controller at most the threshold of an ad, its requests under way and those that come from a controller it replaced are added for it in a minute |
| `Pacing.FleetIsBounded` | `src/retrieval/service.go:144-155` | n instances that use so many controllers each within a minute give an ad at most that many times 700 clicks, twice that with CN, or its own setting, and the requests of that ad under way and changing |
| `Pacing.KeepsExactly` | `src/pacing/pacing.go:81-104` | controllers with any requests under way keep to a whole and those requests in all runs, if and only if their shares together are at most the whole |
| `Pacing.SharesKeep` | `src/retrieval/service.go:144-155` | shares of 700 keep to 700 if and only if each instance uses one controller in the minute, or there are more than 700 instances |
| `Pacing.FailureKeeps` | `src/pacing/pacing.go:30-62` | after a failure of the scaling service controllers keep to 700 if and only if there is at most one |
| `FileSize.FileSize2Str` | `src/util/util.go:215-227` | the loop of divisions yields the number and unit of the text |
| `FileSize.FileSizeStr2Int` | `src/util/util.go:229-247` | the loop over the units, its three errors and the product in 64 bits |
| `FileSize.ReduceDivides` | `src/util/util.go:219-225` | dividing step by step is dividing by the unit, and fails exactly from 2^60 on |
| `FileSize.ReduceWhole` | `src/util/util.go:219-225` | a whole number of a unit is printed as that number and unit |
| `FileSize.LargeTextWraps` | `src/util/util.go:239-245` | a number and unit are read as their product if and only if it fits an int64 |
| `FileSizeTexts.TextIs` | `src/util/util.go:215-227` | the text of every number, by its size |
| `FileSizeTexts.SizeIs` | `src/util/util.go:229-247` | what is read of blanks, sign, digits, blanks and a word, whatever they are: the three errors, or the number times its unit up to multiples of 2^64 |
| `FileSizeTexts.ReadHasForm` | `src/util/util.go:229-247` | any other text is a format error |
| `FileSize.RoundTrip` | `src/util/util.go:215-247` | sizes from 0 below 2^60 are read back to within a unit below and print the same again; no other size is read |
| `Bloom.OrSetsOne` | `src/ct_bloom/ct_bloom.go:41-49` | setting a bit of a byte sets that bit alone |
| `Bloom.BitFromTheTop` | `src/ct_bloom/ct_bloom.go:13-15` | the bits of a byte are numbered from the highest |
| `Bloom.BloomFilter.AddNum` | `src/ct_bloom/ct_bloom.go:45-49` | exactly one bit is added to the bucket |
| `Bloom.BloomFilter.Add` | `src/ct_bloom/ct_bloom.go:51-56` | exactly the hashes of the text are added |
| `Bloom.BloomFilter.Test` | `src/ct_bloom/ct_bloom.go:79-87` | true if and only if all hashes of the text are set |
| `Bloom.BloomFilter.TestAdd` | `src/ct_bloom/ct_bloom.go:89-95` | answers for the bits before, and leaves the hashes of the text set |
| `Bloom.BloomFilter.GetIndex` | `src/ct_bloom/ct_bloom.go:97-106` | the list of the bits that are set |
| `Bloom.BloomFilter.TestIndex` | `src/ct_bloom/ct_bloom.go:108-115` | true if and only if all the bits of the list are set, a panic if and only if an index past the end comes before any that is not set |
| `Bloom.ListingIs` | `src/ct_bloom/ct_bloom.go:97-106` | that list is strictly increasing and holds exactly those bits |
| `Bloom.CalcIndexes` | `src/ct_bloom/ct_bloom.go:64-70` | the sorted hashes of a text, which are its hashes and no others |
| `Bloom.IndexesAre` | `src/ct_bloom/ct_bloom.go:64-70` | the indexes of a text are those seven numbers, each as often as it comes, in order |
| `Bloom.BitsAreUnion` | `src/ct_bloom/ct_bloom.go:22-95` | after any adding exactly the bits of the checksums of each text behind the digits 1 to 7, modulo 512, were added, and no text added tests false |
| `Bloom.TestIsTestIndex` | `src/ct_bloom/ct_bloom.go:64-115` | testing a text is testing its indexes |
| `Bloom.SingleIndexes` | `src/ct_bloom/ct_bloom.go:64-106` | the list of a filter with one text is the text's own if and only if its hashes all differ |

## Left out

- Handlers, response writers, gzip, Redis, S3, AWS, remote ranking and subscription clients: input and output without an algorithm.
- `handler.Search` and the rest of godnf are not part of this model; its delimiters are taken to be `( ) { } ,`, as src/raw_ad/raw_ad_test.go:42-50 prints them.
- gotools.ExpiredMap is not part of this model: an entry is taken to be gone exactly when its time is up, and the capacity of 65536 entries is not modelled.
- md5, crc32, the AES rounds and base64 are abstract functions; what is assumed of them (inverse pairs, no collision) stands in the requires clauses.
- The regexp package: the fixed macro and target patterns have hand-written matchers, each proved to match what the pattern describes.
- Text is a sequence of characters that stand for bytes; UTF-8 decoding does not occur.
- Floating point: ratios and weights are exact numbers with infinities and NaN; rounding is not modelled.
- Icons, native videos, `GetRandMatchedImg`, tracking and click URLs, VAST, categories, slot and country tables: long but shallow.
- `Sscanf` of adapter parts ("%c_%dx%d") is a function the caller supplies; newlines and Unicode blanks in file sizes are not modelled.
- The `AdNum` cut of `randomCopy` (src/rank/rank.go:209-246) and the value copies that end `RandCopy` and `priorityCopy`.
- Fill rates: the percentage strings beside the counters carry nothing the counters do not.
- SampleCtrl is a step system on values, not a class: its goroutines interleave inside the methods. Buffers and the JSON of the report are not part of it.
- Callback items, report items and pieces are values; the source shares pointers to them but changes no item that is in two places.
- `Swap` of the report's queue exchanges keys and counters between items instead of the items; the slots hold the same afterwards.
- Textual aliasing in `append`: `EncryptBytes` may write its padding behind a caller's slice.
- `AddToDnf` around the calls of AddTarget: which targets an ad gets is shallow; the results hold for all calls.
- `Dump`, `Size` and `Base64EncodeBucket`: printing only.
- Images.GetMaxMatchedImg: products of sides that leave an int64 are not wrapped around.
- Creatives.GetMatchedCreative: a coin is named by the image and the test it is flipped for, not by its place in the stream of random numbers.
- `SampleSwitch` (src/status/ctrl.go:217-221) takes the read lock too and is no thread of SampleCtrl: it reads the status and leaves by itself.
- BlankAds.AgreeUnderRule: under the fuzzy rules -2, -1, 2 and 3, for sizes within 1/20000 of the ratio 65535, whether some indexed ad can leave nothing is not worked out; AgreeUnderExactly and AgreeExactly hold for them as for all.
- SampleCtrl.NoPanic: the panic on an error of the page template is not modelled; it depends on no field.
- Pacing.FleetIsBounded: each controller is taken with the requests it sees; that a check and its click fall to two controllers is the step by which a request arrives, not a pointer that is swapped.
- AesContainer.RoundTrip: for texts whose length is an int64, as any Go slice's is.
