# PromptPath, modelled in Dafny

PromptPath is a browser extension that adds a sidebar of the user's prompts to
chat-assistant sites (ChatGPT, Claude, Gemini, DeepSeek, Perplexity). This
project models the logic of its content script, `content.js`, and its options
page, `options/options.js`, as pure Dafny functions over immutable data:

- which platform a hostname belongs to;
- the text-overlap score used to find elements for prompts and answers;
- the prompt list: manual capture, the DOM scrape pipeline, seeding from a
  Perplexity URL, and attaching response previews;
- the conversation id taken from the URL path, the storage key, and the
  history save/load/migrate rules with their fallback to the longest list
  stored for the site;
- the answer finders' candidate selection and the snippet scrapers;
- the header offset and the mutation-observer trigger;
- the options page's settings merge, reset, toggle-id mapping and change
  handlers.

The DOM appears only as lists of candidates: each element is given as its
trimmed text content, its document-relative top and, where the code looks at
them, role classes, computed-style facts or selector matches. Storage is a
list of key/value entries in enumeration order. Timestamps are opaque strings
supplied by the caller (`now`), and `decodeURIComponent` is a parameter that
may fail.

Modules, one file each: `Common` (Option), `Strings` (ASCII `trim`,
`toLowerCase`, `includes`, `substring`, word split), `Sites`, `Overlap`,
`Paths`, `Prompts`, `History`, `Anchors`, `Page`, `Options`.

## Model

| member | source | states |
|---|---|---|
| Sites.DetectLLM | content.js:158-168 | the platform is the first table entry, in insertion order, whose domain occurs in the hostname; when no entry occurs the current platform is kept, not cleared |
| Sites.FirstMatch | content.js:160-166 | position of the first entry from a start position whose domain is a substring of the hostname, with no earlier entry matching; none exactly when no entry matches |
| Sites.ChatDeepseekScrapes | content.js:53-76 | `chat.deepseek.com` gets its own entry, whose user-message selector is non-empty, and not the capture-only `deepseek.com` entry that also matches it |
| Sites.BareDeepseekCaptures | content.js:65-76 | a bare `deepseek.com` host gets the capture-only entry, with an empty user-message selector |
| Sites.UnsupportedHostKeepsCurrent | content.js:158-168 | an unsupported host such as `example.org` leaves the previously detected platform unchanged |
| Overlap.OverlapScore | content.js:551-562 | 0 when either text is empty; the needle's length when the lower-cased haystack contains it; else min(60, length) when it contains the 60-character prefix; else the word tier; never more than the needle's length |
| Overlap.Distinct | content.js:558 | the words of a list that are not yet seen, each once, in first-seen order (a word comes before another exactly when its first occurrence does), as `new Set` iterates them |
| Overlap.WordScoreIsCommonWords | content.js:558-560 | the word tier equals the summed lengths of the set of distinct words the two texts share |
| Overlap.SharedLenIsSetLen | content.js:560 | summing the lengths of the shared words over a duplicate-free list is the set sum over the shared words |
| Overlap.WordScoreSymmetric | content.js:558-560 | the word tier is symmetric in its two texts |
| Overlap.OverlapSymmetricInWordTier | content.js:551-562 | when neither containment tier applies in either direction, the whole score is symmetric |
| Overlap.ShortNeedleSkipsPrefixTier | content.js:556-557 | a needle of at most 60 characters that is not contained goes straight to the word tier |
| Overlap.OverlapAsymmetric | content.js:555-557 | the containment tiers are asymmetric: ("ab", "xaby") scores 2 and ("xaby", "ab") scores 0 |
| Prompts.NextIndex | content.js:712 | the next index is 1 for an empty list or a last index of 0, otherwise the last index plus one |
| Prompts.AddPrompt | content.js:708-719 | as written: nothing changes for an empty trimmed input or one equal to a stored text; otherwise exactly one record is appended, with the next index, the trimmed text cut to the preview length, no element or preview, and earlier records untouched |
| Prompts.AddPromptKeepsInvariants | content.js:708-719 | capture keeps indices strictly increasing and every text within the preview length |
| Prompts.AddPromptDuplicatesLongText | content.js:710-715 | capturing "abc" twice with preview length 2 stores "ab" twice: the duplicate check misses truncated texts |
| Prompts.AddPromptIdempotentWhenShort | content.js:710-715 | as written, a second capture of the same text is harmless when the trimmed text fits in the preview length |
| Prompts.AddPromptFixed | content.js:708-719 | corrected capture: the duplicate check uses the text that would be stored; distinct texts and increasing indices are preserved |
| Prompts.AddPromptFixedIdempotent | content.js:708-719 | with the corrected check, capturing the same text twice equals capturing it once |
| Prompts.Clean | content.js:371 | a cleaned text is exactly the first min(preview length, length) characters of the trimmed text |
| Strings.TrimIsSlice | content.js:371 | `trim` returns the slice of its input that only whitespace precedes and follows |
| Strings.WordsJoinNonWhite | content.js:558 | the words of `split(/\s+/).filter(Boolean)`, joined, are exactly the input's non-whitespace characters in order |
| Strings.WordsDelimited | content.js:558 | every word occurs in the input with whitespace or an end of the input on each side |
| Prompts.CleanAll | content.js:366-371 | each message keeps its element and gets its trimmed, truncated text, in DOM order |
| Prompts.KeptRecords | content.js:366-385 | every record of the scrape comes from a first-seen DOM position, carries that position + 1 as index and that message's cleaned text, and has no preview |
| Prompts.AppendFirstSeen | content.js:380-385 | appending the record of a first-seen position keeps indices increasing and texts distinct |
| Prompts.KeptInvariants | content.js:357-385 | the scrape's records have strictly increasing indices (gaps allowed), pairwise distinct non-empty texts and no previews |
| Prompts.KeptPrefix | content.js:380-385 | scraping more messages only extends the result |
| Prompts.KeptCovers | content.js:380-385 | every message with a non-empty cleaned text has that text in the result, kept at its first occurrence |
| Prompts.SeenMeans | content.js:364 | the `seen` set after n messages holds exactly the non-empty cleaned texts among them |
| Prompts.FirstSeenIffUnseen | content.js:381-384 | the filter's test (non-empty and not seen) holds exactly at first occurrences |
| Prompts.KeepFirstSeen | content.js:364-385 | the map-and-filter loop with its `seen` set produces the first-occurrence reference list |
| Prompts.ScrapePrompts | content.js:350-389 | Perplexity only seeds from the URL; an empty user-message selector leaves the list alone; otherwise the list becomes the first-occurrence records of the cleaned messages |
| Prompts.ScrapeResult | content.js:357-385 | a scrape yields increasing indices, distinct non-empty texts within the preview length, no previews, and every non-empty message text represented |
| Prompts.Undash | content.js:504 | every dash of the decoded slug becomes a space and nothing else changes |
| Prompts.SeededText | content.js:499-505 | a query exactly when the path starts with `/search/` or `/q/` (case-sensitive), the slug decodes, and the decoded slug with dashes read as spaces is non-empty after trimming; the query is that trimmed text, and it has no dash |
| Prompts.SeedFromUrl | content.js:497-510 | without a query nothing changes; otherwise the result is `addPrompt` (as written) of the query: a query not already stored is appended with the next index, earlier records untouched, holding the query cut to the preview length, with no dash |
| Prompts.SeedFromUrlIdempotentWhenShort | content.js:497-510 | seeding twice from the same URL adds the query once when it fits in the preview length |
| Prompts.SeedFromUrlDuplicatesLongSlug | content.js:497-510 | `/search/abc` seeded twice with preview length 2 stores "ab" twice |
| Prompts.UndashedTrimHasNoDash | content.js:504-505 | the stored seed text, trimmed and truncated, contains no dash |
| Prompts.AttachPreview | content.js:1004-1010 | only the last record changes, and only when it has no non-empty preview and the snippet is non-empty; it then gets the snippet cut to the preview length, every other field kept |
| Prompts.AttachPerplexityResponse | content.js:1001-1010 | preview attachment happens on Perplexity only |
| Prompts.AttachPlatformResponse | content.js:1205-1219 | preview attachment happens on DeepSeek and Gemini only |
| Prompts.AnchorQuery | content.js:1221-1222 | the answer finder is asked for the last record's preview when it has one, else for its text |
| Prompts.AttachPreviewSettles | content.js:1004-1010 | once a preview is attached, a second attachment with any snippet leaves the list unchanged |
| Prompts.AttachPreviewKeepsInvariants | content.js:1004-1010 | attaching keeps indices, texts and their invariants, and the new preview is within the preview length |
| Paths.MatchAt | content.js:843 | which alternative of a `(lit1\|lit2)(class+)` pattern matches at a position: the first that does, none before it |
| Paths.Leftmost | content.js:829 | the leftmost position where an unanchored pattern matches, none earlier |
| Paths.CaptureAt | content.js:829 | the captured group is the greedy run of class characters starting right after the winning literal: non-empty, and the next character, if any, is outside the class |
| Paths.Search | content.js:829 | an unanchored match's capture is the group of the leftmost match; none exactly when no position matches |
| Paths.MatchStart | content.js:847 | an anchored match's capture is the group of the match at position 0; none exactly when the pattern fails there |
| Paths.IndexOf | content.js:833 | the first position where a literal occurs, none before it |
| Paths.ClaudeCapture | content.js:833 | Claude's pattern fails exactly when `/chat` does not occur (case-insensitively); otherwise the capture, possibly empty, is the greedy id run after the first `/chat` and its optional slash |
| Paths.ConversationId | content.js:824-856 | per site, the group of that site's pattern when it matches (on Claude, only a non-empty one); otherwise, and on an unknown site, the path, or `root` for an empty path; never empty |
| Paths.PickCapture | content.js:830 | a capture wins; without one the path, or `root` |
| Paths.ClaudeChatId | content.js:832-835 | `/chat/abc123` on Claude gives `abc123` |
| Paths.ChatGptConversationId | content.js:828-831 | `/C/ab` on ChatGPT gives `ab`: the pattern is case-insensitive |
| Paths.ClaudeLandingUsesPath | content.js:832-835 | a Claude path without `/chat` falls back to the path |
| History.SiteKey | content.js:860 | the site part of the key is never empty: the platform key, or `unknown` |
| History.StorageKey | content.js:858-862 | the key is the site prefix `promptpath:history:<site>:` followed by exactly the conversation id |
| History.StorageKeyInjective | content.js:858-862 | two conversations of one site never share a key |
| History.Lookup | content.js:866-868 | reading a key gives none exactly when no entry has that key, else a value stored under it |
| History.Put | content.js:898 | a write overwrites an existing key in place or appends a new one; other entries are untouched |
| History.LookupPut | content.js:898 | after a write, the key reads back the written value |
| History.LookupPutOther | content.js:898 | a write leaves every other key reading as before |
| History.PutKeepsKeysDistinct | content.js:898 | a write keeps storage keys distinct |
| History.SaveHistory | content.js:937-941 | saving writes each record's index, text, timestamp and preview under the current key and changes no other key |
| History.Restore | content.js:870-876 | a loaded record takes its stored fields, with the index defaulting to position + 1, the text to empty, the timestamp to now, and no element |
| History.Longest | content.js:882-888 | the fallback picks a non-empty list under the site prefix of greatest length, the earliest among equals (strict `>`); none exactly when there is no candidate |
| History.Fallback | content.js:879-899 | the longest candidate list is restored and written back under the current key, other keys untouched; with no candidate nothing changes |
| History.LoadHistory | content.js:864-903 | a non-empty list under the exact key is restored without writing; an absent, empty or non-list value triggers the fallback |
| History.MigrateHistoryKeys | content.js:905-935 | nothing changes when the exact key holds a non-empty list; otherwise it behaves as loading |
| History.SaveLoadRoundTrip | content.js:869-876 | saving a non-empty list then loading on the same key returns every record with its index, text, timestamp and preview, element unset, and writes nothing |
| History.ExactKeyIsCandidate | content.js:882-885 | the current conversation's key always passes the fallback's prefix filter |
| History.LoadTwiceSamePrompts | content.js:864-903 | loading again after a load returns the same list and storage |
| History.NoCandidateKeepsPrompts | content.js:879-899 | with nothing stored for the site, loading and migrating change neither the list nor storage |
| Anchors.SelectBest | content.js:1079-1092 | the selection loop returns a position with maximal score, among those the greatest top, among those the first; nothing exactly when every candidate is skipped |
| Anchors.IsBestUnique | content.js:1089-1091 | the selection order leaves at most one answer |
| Anchors.Threshold | content.js:1085 | the Perplexity floor is the smaller of 60 and the floor of 35% of the length |
| Anchors.Short | content.js:1079 | the scored snippet is exactly the first min(k, length) characters of the trimmed snippet: k is 180 here for Perplexity, and 160 at content.js:1104 and 1155 for DeepSeek and Gemini |
| Anchors.PerplexityKey | content.js:1080-1091 | a Perplexity candidate counts exactly when its text is non-empty and its overlap reaches the floor, and is scored by that overlap and its top |
| Anchors.FindPerplexityAnswer | content.js:1063-1098 | no answer for an empty snippet; otherwise the best admissible candidate, whose overlap with the first 180 characters reaches min(60, 35% of their length) |
| Anchors.DeepseekKey | content.js:1107-1121 | a DeepSeek message counts exactly when it is an assistant message with at least 60 characters of text |
| Anchors.FindDeepseekAnswer | content.js:1100-1128 | the best long assistant message by overlap with the first 160 characters and then by position; nothing exactly when there is none |
| Anchors.OrFallback | content.js:1163-1164 | the selector matches are used, or the paragraph/division fallback when there are none |
| Anchors.LongKey | content.js:1167-1171 | a Gemini candidate counts exactly when its text has at least 60 characters |
| Anchors.FindGeminiAnswer | content.js:1151-1180 | the best long candidate by overlap and then by position; nothing exactly when no candidate is long |
| Anchors.FirstLong | content.js:1049-1056 | position of the first text of at least 60 characters, none before it |
| Anchors.LastLong | content.js:1192-1197 | position of the last text of at least 60 characters, none after it |
| Anchors.PerplexitySnippet | content.js:1024-1061 | the first text block of at least 60 characters, or empty exactly when there is none |
| Anchors.AssistantTexts | content.js:1136-1141 | the DeepSeek scraper reads only messages its role-class test calls assistant |
| Anchors.DeepseekSnippet | content.js:1130-1149 | the last assistant message with at least 60 characters, or empty exactly when there is none |
| Anchors.GeminiSnippet | content.js:1182-1203 | the last candidate text of at least 60 characters, or empty exactly when there is none |
| Anchors.FirstMatching | content.js:518-531 | on ChatGPT and Claude, the first non-empty message that contains the snippet or whose first 50 characters the snippet contains |
| Anchors.GenericScore | content.js:535-538 | empty candidate texts are passed over, the others scored by overlap |
| Anchors.EarlyExit | content.js:532-544 | the generic search stops at the first candidate scoring at least 80% of the snippet length; otherwise it returns the first candidate of greatest positive score, or nothing when all score 0 |
| Anchors.FindElementForPromptText | content.js:512-549 | nothing for an empty snippet; the first matching message on ChatGPT and Claude; elsewhere the first candidate whose overlap reaches 80% of the snippet length, or failing that the first candidate of greatest positive overlap, and nothing exactly when every overlap is 0 |
| Page.HeaderOffset | content.js:647-680 | the greatest height between 40 and 140 among visible fixed or sticky elements in the top 20 pixels; 0 exactly when there is none |
| Page.PlatformOffset | content.js:636-641 | the fixed offsets: 72 on Perplexity, 64 on DeepSeek, 80 on Gemini, 0 elsewhere |
| Page.GetHeaderOffset | content.js:632-644 | a detected header's height wins; otherwise the platform's fixed offset; always between 0 and 140 |
| Page.FallbackPlatformsOffsetPositive | content.js:636-641 | Perplexity, DeepSeek and Gemini always get an offset of at least 40 |
| Page.ShouldUpdate | content.js:295-312 | a mutation batch triggers a re-scrape exactly when some child-list mutation added an element that matches the user-message selector or contains a match |
| Page.CaptureOnlyNeverTriggers | content.js:304-305 | an empty user-message selector never triggers |
| Options.Overlay | options/options.js:40-48 | an overlay has every key of both groups, the stored value winning and the default filling the rest |
| Options.LoadSettings | options/options.js:35-57 | with nothing stored the defaults; otherwise each group is the defaults overlaid with the stored group, an absent group overlaying nothing; nothing else is kept |
| Options.OverlayEmpty | options/options.js:40-48 | overlaying an empty group returns the defaults |
| Options.LoadKeepsDefaultKeys | options/options.js:38-52 | every default key is present after loading, in both groups |
| Options.SaveLoadRoundTrip | options/options.js:38-48 | settings holding every default key come back unchanged after saving and loading |
| Options.ReloadIsStable | options/options.js:35-57 | saving and reloading loaded settings changes nothing |
| Options.ResetToDefaults | options/options.js:293-294 | reset yields exactly what loading with nothing stored yields |
| Options.FindFrom | options/options.js:167 | position of the first occurrence of a literal, none before it |
| Options.ReplaceFirst | options/options.js:167 | a string `replace` rewrites only the first occurrence |
| Options.PlatformOfToggle | options/options.js:167 | an id starting with `toggle` maps to the lower-cased remainder |
| Options.ToggleMaps | options/options.js:162-167 | `toggle` + name maps to the lower-cased name |
| Options.ToggleChatGptMaps | options/options.js:162-167 | `toggleChatGPT` maps to `chatgpt` |
| Options.ToggleClaudeMaps | options/options.js:162-167 | `toggleClaude` maps to `claude` |
| Options.ToggleGeminiMaps | options/options.js:162-167 | `toggleGemini` maps to `gemini` |
| Options.ToggleDeepseekMaps | options/options.js:162-167 | `toggleDeepSeek` maps to `deepseek` |
| Options.TogglePerplexityMaps | options/options.js:162-167 | `togglePerplexity` maps to `perplexity` |
| Options.TogglesMapOneByOne | options/options.js:162-167 | the five ids map, in order, to the five platform keys |
| Options.ToggleIdsMapToPlatforms | options/options.js:4-10 | the toggle ids map one-to-one onto exactly the default platform keys |
| Options.ToggleChange | options/options.js:163-173 | a toggle change writes only its own platform's entry, before loading nothing |
| Options.DisplayToggle | options/options.js:177-187 | a display checkbox change writes only `display[id]` |
| Options.SelectChange | options/options.js:190-200 | a select change writes only `display[id]`, as a string |
| Options.CardClick | options/options.js:144-158 | a card click off the checkbox sets its platform to the negation of the prior checked state and changes no other setting |
| Options.CardClickMatchesToggle | options/options.js:144-173 | a card click stores the same value under the same key as the change of that card's own toggle |

## Left out

- DOM querying, selector matching and text extraction: the candidates each finder sees are inputs, given as trimmed texts, tops, role classes and style facts.
- Prompts.SeedFromUrl: follows the code as written, so it inherits the duplicate-check finding below; `SeedFromUrlIdempotentWhenShort` is stated only for queries that fit in the preview length.
- Prompts.ScrapePrompts: one `now` timestamp serves every record of a scrape, where the code reads the clock once per record.
- Scroll geometry, `scrollElementIntoView` and the verify/retry loop: floating-point pixel arithmetic, computed styles and timers.
- The timers that follow a triggering mutation batch, the SPA URL poll, `init` and `startObserving`'s scheduling: event-loop behaviour.
- History.Put: a new key is appended after the existing ones, which assumes `chrome.storage.local.get(null)` enumerates keys in insertion order; the storage API does not promise an order, and only the fallback's tie-break between equally long lists after a write depends on it.
- `chrome.storage`, runtime and tab messaging, `notifyContentScripts` and `background.js`: storage is a list of entries, and messaging is outside the model.
- Sidebar HTML, `escapeHtml`, notifications, theme handling, `updateUI`, rendering and export: UI work.
- Input capture (`hookInputCapture`, `getActiveTextFallback`): DOM event wiring; its effect is a call of `addPrompt`, which is modelled.
- Setting the `data-promptpath-anchor` attribute on a found element: a DOM write; the finders' choice of element is modelled.
- `decodeURIComponent` is a parameter that may fail; `toLocaleTimeString` gives the opaque `now`; `parseInt` of setting strings is not modelled and the preview length is a natural number.
- Unicode: case folding and whitespace are ASCII only.
- String lengths, `substring` cuts and the 50/60/160/180-character limits count Dafny characters (Unicode scalar values), where the code's `.length` and `substring` count UTF-16 code units; for text outside the Basic Multilingual Plane (emoji, for instance) the code's cut points, thresholds and overlap scores differ from the model's, and its `substring` can split a surrogate pair, which the model cannot represent.
- Anchors.Threshold: `Math.floor(n * 0.35)` is exact integer arithmetic; for the lengths that occur (at most 180) it differs from the floating-point value only at 180, where the minimum with 60 hides it. `score >= n * 0.8` is `5 * score >= 4 * n`, which agrees with it for all integers.
- Element tops are integers; the code's tops are floating point.
- The `try`/`catch` wrappers: the modelled operations do not throw, apart from URL decoding, which is modelled.
- Options.LoadSettings: stored values are booleans or strings; other JSON values are not modelled.

## Findings

| source | as written | input that shows it | evidently intended | confidence | as-written member | corrected member |
|---|---|---|---|---|---|---|
| content.js:710-715 | the duplicate check compares stored texts with the trimmed input, but the stored text is the trimmed input cut to the preview length, so an input longer than the preview length never matches its own stored record | `addPrompt("abc")` twice with preview length 2 stores "ab" twice; on every site but ChatGPT, Enter in the prompt box reaches both the document-level and the input-level keydown listeners (content.js:281-288, 765-771), which each call `addPrompt` with the same text; on Perplexity the URL seed (content.js:342 and 337→353, into 505) re-adds a query longer than the preview length on every load, as `SeedFromUrlDuplicatesLongSlug` shows for `/search/abc` | compare against the text that would be stored, so the same prompt is recorded once | medium; not executed | Prompts.AddPromptDuplicatesLongText | Prompts.AddPromptFixedIdempotent |
