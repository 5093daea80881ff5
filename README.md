# A verified model of the Kamihime Project scenario scraper

The scraper reads a small configuration file of `key: value` settings
(`latest.txt`) and turns its band settings into candidate character, summon
and episode IDs. For each ID it asks the game's API for the record, picks the
episodes by rarity and name, resolves up to two scenes per episode, numbers
them into `EP{n}` index columns and requests the portrait images, whose file
names are Blowfish-encrypted and sharded. The collected rows are merged into
`index.csv` under the key `Rank::Name`. Two further tools repair downloaded
scenario JSON (trailing commas and semicolons, then a wrap as
`{"scenario": ...}`), and download the assets the scenario scripts refer to,
keeping an append-only list of links that answered 404.

This project models that core in Dafny, one module per concern:

- `Base`, `PyJson`, `Dict`, `Sorting` hold the Python meaning of the string, integer, JSON value, dict and stable-sort operations the code relies on.
- `Latest` models the configuration reader.
- `Bands` models band parsing and candidate ID generation.
- `Responses`, `Episodes`, `Records` model the per-entity workflows.
- `Dispatch` models the run over the categories and its result.
- `Portrait` models the portrait URLs.
- `IndexCsv` models the index merger.
- `Rewrite` and `JsonRepair` model the JSON repair.
- `AssetLinks` and `AssetStore` model the asset downloader.

**How the code maps onto Dafny.**

- Code that changes variables step by step becomes a `method`. Each such method is proved equal to a function that specifies it. These are the ID generators, the scene-numbering and EP2/EP3 loops, the row merge, the workflows and the dispatch loop.
- The asset downloader's module state becomes the class `AssetStore.Downloader`. That state is the ignore list, the assets on disk, and the ignore file with its start-up count.
- Code that only computes becomes a `function`.
- Properties are lemmas about those functions.

The network is an oracle from URL to reply, and the disk is a set of existing paths. The Blowfish block function is a parameter.

## Model

| member | source | states |
|---|---|---|
| Latest.SkippedLines | app.py:328-332 | a stripped line sets nothing exactly when it is empty, starts with `#` or holds no `:`; every other line sets a key |
| Latest.LoadLatest | app.py:321-335 | a missing file gives the empty dictionary; otherwise the loop over the lines ends with the dictionary `LatestOf` gives for them |
| Latest.LatestOf | app.py:326-335 | reading the lines gives a dictionary with no repeated key |
| Latest.LookupIsLastSetting | app.py:333-334 | looking up a key gives the value of the last line that sets it, and nothing for a key no line sets |
| Latest.LastValueLine | app.py:333-334 | that value comes from a line that sets the key, and no later line sets it |
| Latest.RenderedLine | app.py:333-334 | a `key: value` line with a clean key and a stripped value reads back as that pair |
| Latest.LatestOfSnoc | app.py:327-334 | one more setting line assigns its key on top of what the earlier lines give |
| Latest.ReadRendered | app.py:321-335 | writing a dictionary of clean keys and stripped values as `key: value` lines and reading it back gives the same dictionary, in the same order |
| JsonRepair.RemoveTrailingCommasDeletes | modifi_json.py:16-19 | the substitution deletes exactly the commas followed by blanks and a closing bracket or brace, and keeps every other character in order |
| JsonRepair.RemoveTrailingCommasNoComma | modifi_json.py:16-19 | text with no comma is left unchanged |
| JsonRepair.RemoveTrailingColonsMatch | modifi_json.py:30-33 | text ending in a bracket or brace, blanks, `;` and blanks is cut right after that bracket |
| JsonRepair.RemoveTrailingColonsChanged | modifi_json.py:30-33 | conversely, when the text changes it had such a tail and the result is the text up to the bracket |
| JsonRepair.IsWrappedKeys | modifi_json.py:22-27 | a value counts as wrapped exactly when it is a dict whose only key is `scenario` |
| JsonRepair.WrapWraps | modifi_json.py:50-54 | after wrapping the value is wrapped; a wrapped value is kept, any other becomes the `scenario` member of a new dict; wrapping twice changes nothing more |
| JsonRepair.ProcessJsonFileWrites | modifi_json.py:36-67 | the file is rewritten exactly when the cleaned text parses, and then with the wrapped parse; a parse failure is caught and writes nothing |
| JsonRepair.ProcessRoot | modifi_json.py:69-74 | every rewrite is of a file named `*_script.json` and holds a wrapped value |
| JsonRepair.ProcessRootComplete | modifi_json.py:69-74 | every `*_script.json` file whose cleaned text parses is rewritten with its processed value |
| JsonRepair.ProcessRootSound | modifi_json.py:69-74 | every rewrite is of such a file, with its processed value |
| Rewrite.SubDeletes | modifi_json.py:18 | the left-to-right substitution deletes exactly the characters the pattern matches when matches cannot overlap |
| Rewrite.DeletedAbsent | modifi_json.py:18 | text without the deleted character is unchanged |
| Sorting.Sort | write_csv.py:83 | sorting gives a permutation of its input |
| Sorting.InsertSorted | write_csv.py:83 | inserting after every element that sorts no later keeps an ordered sequence ordered |
| Sorting.SortSorted | download_json_core.py:107 | the stable sort gives an ordered permutation of its input under any total preorder |
| Sorting.InsertStable | write_csv.py:82-83 | inserting an element places it after every element level with it, so it ends its level class |
| Sorting.SortStable | write_csv.py:82-83 | the sort is stable: the elements level with any given one keep their input order |
| Dict.Get | download_json_core.py:265 | a lookup finds a value exactly when the dictionary has the key |
| Dict.PutKeys | write_csv.py:63-75 | assigning an existing key keeps the key order, and a new key goes last |
| Dict.GetPut | write_csv.py:63-75 | after assigning `k`, looking up `k` gives the new value and every other key its old one |
| Dict.PutValid | write_csv.py:63-75 | assigning keeps a dictionary free of repeated keys |
| Dict.Extensional | write_csv.py:63-75 | two dictionaries with the same key order and the same lookups are equal |
| PyJson.Lookup | download_json_core.py:265 | an object member is found exactly when the key is among the object's keys |
| PyJson.KeyOrder | modifi_json.py:26 | the keys of an object as iterating the dict lists them, each once |
| Base.ParseIntOfString | download_json_core.py:102 | reading back the decimal text of an integer with `int()` gives the integer |
| Base.NatToStringInjective | download_json_core.py:419 | different natural numbers have different decimal texts |
| Base.Split | download_json_core.py:313 | every part of a split at a character is free of that character, and there is at least one part |
| Base.Without | write_csv.py:41 | the result holds neither deleted character and is no longer than the input (also the comma and semicolon deletion of download_assets_core.py:84-88) |
| Base.WithoutAppend | write_csv.py:41 | deleting distributes over concatenation, so each character is dropped on its own, exactly when it is one of the two |
| Base.WithoutAbsent | write_csv.py:41 | a text with neither character is left unchanged |
| Bands.RoundHalfEven | download_json_core.py:114 | `round` gives the nearest integer, and the even one at a tie |
| Bands.RoundHalfEvenUnique | download_json_core.py:114 | those two properties single out one integer, so the model of `round` is the only one |
| Bands.MilliOfDecimal | download_json_core.py:114-149 | a threshold `m.f` with at most three decimals gives the exact ID base `1000*m + f` scaled to thousandths |
| Bands.MilliOfInt | download_json_core.py:114 | an integer threshold `n` gives the base `1000*n` |
| Bands.BandLeTotal | download_json_core.py:107 | the order `sorted` uses on (threshold, count) pairs is a total preorder |
| Bands.ParseFloatOfDigits | download_json_core.py:101 | `float` of a digit string is its value |
| Bands.ParseFloatOfDecimal | download_json_core.py:133 | `float("a.b")` for digit strings is `a + b/10^len(b)` |
| Bands.ParseFloatPlain | download_json_core.py:101 | without blanks, sign or exponent, `float` reads its text as a plain mantissa |
| Bands.KamihimeSetting | download_json_core.py:96-103 | the setting `kamihime_<digits>: <int>` gives the band (digits, int) |
| Bands.EidolonSetting | download_json_core.py:124-138 | the setting `eidolon_<a>_<b>: <int>` gives the band (`a.b`, int) |
| Bands.EidolonBandOf | download_json_core.py:128-138 | an `eidolon_` key whose suffix splits in two parts with a threshold gives the band of that threshold and the value |
| Bands.EidolonParts | download_json_core.py:129 | removing `eidolon_` from `eidolon_<a>_<b>` and splitting at `_` gives exactly `a` and `b` |
| Bands.CollectSource | download_json_core.py:96-140 | every collected band comes from a setting of the dictionary that parses to it; malformed settings give nothing |
| Bands.CollectComplete | download_json_core.py:96-140 | every setting that parses contributes its band |
| Bands.KamihimeBandsFromLatest | download_json_core.py:90-107 | the kamihime bands are sorted ascending and are a permutation of the bands the settings give |
| Bands.EidolonBandsFromLatest | download_json_core.py:121-142 | the eidolon bands are those the settings give, in the dictionary's order and unsorted |
| Bands.BandIds | download_json_core.py:113-117 | one band gives `count` candidates, offsets `1..count` above its base (none for a non-positive count) |
| Bands.AllIdsLength | download_json_core.py:109-154 | the number of candidates is the sum of the non-negative counts |
| Bands.AllIdsSource | download_json_core.py:113-117 | every candidate lies within the count of some band and carries its category |
| Bands.AllIdsComplete | download_json_core.py:113-117 | every offset within a band's count gives a candidate |
| Bands.GenerateIds | download_json_core.py:113-119 | the nested loop emits exactly the candidates of each band in band order |
| Bands.GenerateKamihimeIds | download_json_core.py:109-119 | the kamihime candidates are those of the sorted bands; a candidate is generated exactly when some setting gives it; their number is the sum of the counts |
| Bands.GenerateEidolonIds | download_json_core.py:144-154 | the eidolon candidates are those of the unsorted bands, and a candidate is generated exactly when some setting gives it |
| Bands.GeneratedSound | download_json_core.py:109-154 | any permutation of the collected bands generates only candidates some setting gives |
| Bands.GeneratedComplete | download_json_core.py:109-154 | and every candidate some setting gives |
| Bands.TotalCountPermutation | download_json_core.py:107 | sorting the bands does not change the total number of candidates |
| Bands.AdvEpisodeIds | download_json_core.py:156-178 | the IDs are consecutive from one above the type's base (8000 for soul, 0 otherwise); a missing setting or one `int()` rejects gives none, and a setting `int()` reads as `n` gives `max(n, 0)` IDs |
| Bands.AdvEpisodeCount | download_json_core.py:162-178 | a setting `str(n)` gives exactly `max(n, 0)` IDs |
| Responses.DownloadInfo | download_json_core.py:210-242 | status 440 ends the run, a raised request gives `None`, an error status, unparsable body or dict with an `errors` key gives `[]`, a list or string body holding `"errors"` raises in the log call (line 231), and every other 200 body is returned as parsed |
| Responses.InfoRecordExactly | download_json_core.py:223-263 | the caller sees a record exactly for a truthy 200 body without an `errors` member |
| Responses.BaseEpisodeOf | download_json_core.py:313 | an episode id `"<n>_<rest>"` gives the base episode `n` |
| Responses.ChapterScenes | download_json_core.py:356-370 | a chapter gives at most two scene references |
| Responses.FirstSceneOf | download_json_core.py:359-364 | a non-empty `scenarios` list gives the id and directory of its first element |
| Responses.FirstSceneAbsent | download_json_core.py:359-365 | a missing or empty list gives no scene |
| Responses.WellFormedChapter | download_json_core.py:356-370 | the first chapter of a well-formed episode gives its scenario, then its harem scene, in that order |
| Responses.Chunks | download_json_core.py:391 | the groups cut from the directory's tail have one to three characters each |
| Responses.FallbackPathShape | download_json_core.py:389-392 | the fallback path is the directory's last six characters as two groups of three, then `/<directory>/scenario.json`; shorter directories give shorter groups |
| Responses.SceneMetaCases | download_json_core.py:383-395 | a failed request skips the scene; a 200 reply gives its body; any other status falls back to the rebuilt metadata, and skips the scene when the directory cannot be sliced |
| Responses.SafeName | download_json_core.py:269-273 | the safe name has the raw name's length, with every `[` turned into `(` and every `]` into `)`, and no bracket left |
| Responses.ReplaceChar | download_json_core.py:271-272 | replacing a one-character text maps each character on its own |
| Episodes.AnyInString | download_json_core.py:331 | for a string name the awakening test holds exactly when some keyword is a substring |
| Episodes.AnyInRaised | download_json_core.py:331 | the test raises exactly when the name supports no `in` |
| Episodes.KamihimeEps | download_json_core.py:317-341 | base episode 0 gives no episodes; otherwise one to three consecutive episodes that include the base; only the SSR name test can raise |
| Episodes.KamihimeEpsRules | download_json_core.py:322-339 | SR gets `[e-1, e, e+1]`; SSR with an awakening keyword `[e-1, e]`, taking precedence; SSR with the true-awakening keyword `[e]`; any other SSR three; other rarities two |
| Episodes.EidolonEps | download_json_core.py:502 | a summon always gets `[e-1, e]` |
| Episodes.KeptEpisodes | download_json_core.py:380-426 | a scene loop that does not raise keeps at most one episode per resolved scene (also lines 526-564) |
| Episodes.EpisodeKept | download_json_core.py:380-426 | a scene is kept exactly when its id is a string, its metadata a dict with a non-empty string `scenario_path`, and the static file there answers 200; the episode carries the metadata's title and summary |
| Episodes.KeptEpisodesSound | download_json_core.py:380-426 | when the scene loop finishes, no scene raised and every kept episode is the episode of one of the scenes |
| Episodes.AdvScenes | download_json_core.py:648-698 | a scene loop that does not raise gives at most one usable scene per resolved scene |
| Episodes.KeptEpisodesStep | download_json_core.py:380-426 | one more scene raises, is skipped, or adds its episode at the end |
| Episodes.EpKeyInjective | download_json_core.py:419-424 | different episode numbers or suffixes name different `EP{n}` fields |
| Episodes.AddEpisodeGet | download_json_core.py:419-424 | one kept scene writes its id, and its title and summary only for a titled number; every other field is unchanged |
| Episodes.NumberedId | download_json_core.py:419-426 | the n-th kept scene's id is in `EP{n}ID` |
| Episodes.NumberedTitle | download_json_core.py:421-424 | the n-th kept scene's title and summary are in `EP{n}Title` and `EP{n}Info` exactly when n is a titled number (1, 2, 4 for characters; 1, 2 for summons) (also lines 256, 447) |
| Episodes.NumberedBeyond | download_json_core.py:419-426 | no `EP{n}` field past the kept scenes is written |
| Episodes.NumberedKeepsOthers | download_json_core.py:277-281 | the name, rank and description are left as they were (also lines 419-426) |
| Episodes.WriteEpisode | download_json_core.py:419-424 | the three assignments give the row of one kept scene |
| Episodes.NumberEpisodes | download_json_core.py:380-426 | the scene loop numbers exactly the kept scenes from 1, `ep_no` advancing only for them (also lines 526-564) |
| Episodes.ReconcileTitle | download_json_core.py:668-682 | EP2's title and summary come from the last titled scene, `.ks` or not |
| Episodes.ReconcileUntitled | download_json_core.py:643-672 | with no titled scene the title and summary stay empty and neither id is set |
| Episodes.ReconcileIds | download_json_core.py:673-682 | EP2's id is the last titled `.ks` scene and EP3's the last titled other scene |
| Episodes.ReconcileNoId | download_json_core.py:643-682 | with no titled scene of a kind, the matching id stays unset |
| Episodes.ReconcileScenes | download_json_core.py:643-698 | the loop updating the four variables ends with the reconciliation of the usable scenes |
| Episodes.AdvRowFields | download_json_core.py:593-597 | `EP2Title` and `EP2Info` are always present; `EP2ID` and `EP3ID` exactly when set to a non-empty id; the name is the formatted folder and the rank the parent folder (also lines 700-708) |
| Records.CharaRowFields | download_json_core.py:277-281 | the starting row has no repeated key and carries the name and the rank (also lines 466-470) |
| Records.Gathered | download_json_core.py:342-373 | when no chapter raises, the episodes give at most two scenes each (also lines 503-520) |
| Records.GatheredOne | download_json_core.py:357-372 | a chapter that raises part-way keeps what it appended for a character, and crashes a summon (also lines 514-520) |
| Records.GatherScenes | download_json_core.py:343-372 | the loop appending to `scenes` ends with the scenes `Gathered` describes |
| Records.ProcessKamihime | download_json_core.py:247-442 | the imperative workflow gives exactly the effect `KamihimeRecord` describes |
| Records.ProcessEidolon | download_json_core.py:445-580 | the imperative workflow gives exactly the effect `EidolonRecord` describes |
| Records.ProcessAdv | download_json_core.py:582-711 | the imperative workflow gives exactly the effect `AdvRecord` describes |
| Records.KamihimeScenesKeeps | download_json_core.py:277-281 | the scene stage leaves the name, rank and description alone (also lines 300-442) |
| Records.EidolonScenesKeeps | download_json_core.py:466-470 | the scene stage leaves the name, rank and description alone (also lines 487-580) |
| Records.KamihimeClaims | download_json_core.py:284-295 | a character creates at most one folder, one that did not exist, requests its portrait exactly then, and a row names that folder |
| Records.EidolonClaims | download_json_core.py:472-483 | the same for a summon |
| Records.AdvClaims | download_json_core.py:588-638 | the same for a soul, memorial or burst episode |
| Records.KamihimeRerun | download_json_core.py:284-287 | running a character again once its folder exists gives no row and creates nothing |
| Records.EidolonRerun | download_json_core.py:472-475 | running a summon again once its folder exists gives no row and creates nothing |
| Records.AdvRerun | download_json_core.py:620-623 | running an episode again once its folder exists gives no row and creates nothing |
| Dispatch.Bump | download_json_core.py:768 | a row counted for one category adds one to that category and to the total, and leaves the other categories alone (also lines 787, 809, 831, 853) |
| Dispatch.RunIdsStep | download_json_core.py:762-772 | one more finished worker runs on the folders the earlier ones left and is recorded on top of their result, unless it ends the session |
| Dispatch.RunIdsExited | download_json_core.py:220-222 | once a worker ends the run (the download thread), the run gives no result (also lines 762-772) |
| Dispatch.RunCategoriesStep | download_json_core.py:755-858 | one more category runs its block, when targeted, on the state the earlier ones left |
| Dispatch.RunCategoriesExited | download_json_core.py:755-858 | once a block ends the run (the download thread), no later block runs |
| Dispatch.CandidateIds | download_json_core.py:758-759 | a block submits exactly the IDs its generator gives (also lines 777-778, 796, 818, 840) |
| Dispatch.Process | download_json_core.py:762 | one worker is the workflow of its category (also lines 781, 801, 823, 845) |
| Dispatch.RunBlock | download_json_core.py:763-772 | the loop over the finished workers ends with the result `RunIds` describes |
| Dispatch.RunDownloadJson | download_json_core.py:723-880 | the imperative run gives exactly the outcome `RunDownload` describes: the categories in order, then the index merge and the message |
| Dispatch.RecordClaims | download_json_core.py:762 | every worker creates at most one new folder, asks for a portrait exactly then, and a row names that folder (also lines 781, 801, 823, 845) |
| Dispatch.ApplyConsistent | download_json_core.py:764-772 | recording one worker's effect keeps the run consistent |
| Dispatch.ApplyRowConsistent | download_json_core.py:766-768 | a row names the folder its worker created, which no earlier row names, with the workers run one at a time |
| Dispatch.RunIdsConsistent | download_json_core.py:761-772 | a block keeps the run consistent |
| Dispatch.RunCategoriesConsistent | download_json_core.py:755-858 | the blocks keep the run consistent |
| Dispatch.RunDownloadConsistent | download_json_core.py:730-880 | a finished run has `success` exactly when no worker raised, counts that add up to the rows handed to the index writer, one portrait per created folder, and rows that each name a distinct new folder (the last two with the workers run one at a time); the index is that merge |
| Portrait.CharUtf8 | download_portrait.py:65 | a character encodes to one to four bytes, one byte exactly for ASCII |
| Portrait.Utf8Ascii | download_portrait.py:65 | an ASCII text encodes to one byte per character, each its code |
| Portrait.Pad | download_portrait.py:65 | padding appends one to eight bytes up to the next multiple of 8 and keeps the data as a prefix |
| Portrait.UnpadPad | download_portrait.py:65 | unpadding undoes padding (section 6.3 of RFC 5652) |
| Portrait.Ecb | download_portrait.py:64-66 | ECB mode keeps the length of block-aligned data |
| Portrait.EcbInverse | download_portrait.py:64-66 | ECB with the inverse block function undoes ECB |
| Portrait.Hex | download_portrait.py:66 | `hex()` writes two lowercase hex digits per byte |
| Portrait.FromHexHex | download_portrait.py:66 | the hex digits read back to the bytes they were written from |
| Portrait.EncryptRoundTrip | download_portrait.py:62-66 | an n-byte plaintext gives `16*(n/8+1)` lowercase hex digits, which decrypt to the plaintext with the inverse block function |
| Portrait.GetPathOfName | download_portrait.py:68-74 | for a name of at least six characters and no `.`, the shards are its characters -6..-3 and its last three |
| Portrait.HexNamePath | download_portrait.py:68-74 | the path of a hex name: the two shards, the name and the extension |
| Portrait.BuildUrlBounds | download_portrait.py:73-86 | every URL is under the fixed base and ends in the extension its type prefix selects |
| Portrait.BuildUrlShape | download_portrait.py:76-86 | a URL is the base, two shards of the encrypted name, the name and the extension; the name decrypts to the plaintext |
| Portrait.EncryptedUrl | download_portrait.py:62-74 | an encrypted name has at least 16 digits, takes the plain shard path and decrypts to its plaintext |
| Portrait.PlainSuffix | download_portrait.py:77-82 | a type prefix gets the `_0` suffix exactly when it is neither an item nor a harem image |
| Portrait.RuleOffsets | download_portrait.py:30-56 | exactly the five known types have a rule; the ID offsets are 0, 0, 0, 30000 and 32000; only memorial and burst lack an illustration (also lines 104-108) |
| Portrait.RulePrefixes | download_portrait.py:30-56 | every rule's prefixes are the known icon and illustration prefixes, and only memorial and burst use the item prefix |
| Portrait.IconExt | download_portrait.py:73 | every icon prefix selects `.jpg` |
| Portrait.IllustExt | download_portrait.py:73 | every illustration prefix selects `.png` |
| Portrait.IconPlaintext | download_portrait.py:77-82 | an icon's plaintext is `prefix + id + "_0"`, except for the item prefix, which takes no suffix |
| Portrait.IllustPlaintext | download_portrait.py:77-82 | an illustration's plaintext is `prefix + id + "_0"` |
| Portrait.FetchesShape | download_portrait.py:108-119 | a rule fetches its icon as `{name}.jpg` from `build_url(icon, x)` and its illustration, if any, as `{name}.png` from `build_url(illust, x)`, each URL under the base with the file's extension |
| Portrait.DownloadPortraitShape | download_portrait.py:103-119 | a known type fetches its icon as `{name}.jpg` and, except for memorials and bursts, its illustration as `{name}.png`, each from the URL its prefix builds for `str(char_id + id_offset)`; an unknown type fetches nothing |
| IndexCsv.Collapse | write_csv.py:42 | the result has no two whitespace characters in a row and no whitespace but spaces, and starts with whitespace exactly when the input does; `IndexCsv.CollapseWords` states that each run between words becomes exactly one space |
| IndexCsv.VisibleDropNewlines | write_csv.py:41 | deleting line breaks keeps every other non-whitespace character, in order |
| IndexCsv.VisibleCollapse | write_csv.py:42 | collapsing whitespace keeps every non-whitespace character, in order |
| IndexCsv.CollapseWords | write_csv.py:42-43 | from text that does not start with whitespace, collapsing and trimming gives its words joined by single spaces |
| IndexCsv.NormalizeWords | write_csv.py:37-43 | a normalised string is `' '.join(s.split())` of the string with its line breaks deleted |
| IndexCsv.NormalizeTextShape | write_csv.py:37-43 | a normalised string has no line break, only single spaces between words, nothing to trim, and the same non-whitespace characters in the same order |
| IndexCsv.StripCollapsed | write_csv.py:43 | trimming a collapsed string leaves it collapsed with nothing left to trim |
| IndexCsv.NormalizeTextIdempotent | write_csv.py:41-43 | normalising a string twice gives what normalising once gives |
| IndexCsv.NormalizeIdempotent | write_csv.py:37-43 | normalising is idempotent, and a value that is not a string is returned unchanged |
| IndexCsv.MergeRow | write_csv.py:65-72 | the loop over the columns fills exactly the merged row |
| IndexCsv.MergeRows | write_csv.py:61-73 | the loop over the batch leaves the table `MergeAll` describes |
| IndexCsv.CsvFieldsDistinct | write_csv.py:13-19 | the fifteen columns are distinct |
| IndexCsv.MergedRowFields | write_csv.py:13-72 | a merged row has exactly the columns, in order; each holds the normalised new value when that is not blank and the stored value (or `""`) otherwise; other incoming fields are dropped |
| IndexCsv.BlankKeepsOld | write_csv.py:67-72 | a blank new value keeps the stored one, so a stored non-blank value is never erased; a non-blank new value wins |
| IndexCsv.BatchKeys | write_csv.py:45-62 | each row of the batch is merged under `Rank::Name` of the incoming row |
| IndexCsv.MergeAllValid | write_csv.py:61-73 | the table keeps one entry per key |
| IndexCsv.MergeAllKeys | write_csv.py:33-73 | after the batch the table has an entry exactly for the keys it had and the keys of the batch's rows |
| IndexCsv.MergeAllOthers | write_csv.py:61-73 | entries under keys no row of the batch has are unchanged |
| IndexCsv.MergeAllCell | write_csv.py:61-73 | each column of an entry is the last non-blank normalised value the batch gives for that key, or the stored value: a later row merges over an earlier one |
| IndexCsv.MergeAllEntry | write_csv.py:65-73 | under a key of the batch the entry has exactly the columns, in order |
| IndexCsv.MergeAllKeepsOrder | write_csv.py:73 | merging keys the table already has keeps its keys and their order |
| IndexCsv.MergeAllIdempotent | write_csv.py:61-73 | merging the same rows a second time leaves the table unchanged |
| IndexCsv.RowLeTotalPreorder | write_csv.py:83 | ordering rows by (Rank, Name) is a total preorder, so the stable sort is well defined |
| IndexCsv.WriteRows | write_csv.py:50-75 | an empty batch writes nothing; otherwise the file is the saved form of the merged table |
| IndexCsv.WriteLines | write_csv.py:85-89 | the writer emits the header, then the line of each row in turn |
| IndexCsv.SavedShape | write_csv.py:78-89 | the saved file is the header, then every entry exactly once, sorted by (Rank, Name), each line holding exactly the columns in order |
| IndexCsv.SavedLines | write_csv.py:86-89 | after the header, line i is the CSV line of the i-th row |
| AssetLinks.CleanScriptDeletes | download_assets_core.py:84-88 | each of the four substitutions deletes exactly the characters its pattern matches in the text it is given |
| AssetLinks.CleanScriptKeeps | download_assets_core.py:84-88 | the clean-up removes only commas and semicolons; every other character is kept, in order |
| AssetLinks.CleanScriptPlain | download_assets_core.py:84-88 | a text without commas and semicolons is written as it came |
| AssetLinks.ScriptNameSkipped | download_assets_core.py:143 | a script's own file name contains `_script`, so the walk passes it by (also lines 179, 242-243) |
| AssetLinks.LastStorage | download_assets_core.py:158 | the greedy pattern settles on the last `storage="` that fits before the line's last `"` |
| AssetLinks.CaptureComplete | download_assets_core.py:158-173 | a line with the pattern's shape yields a reference |
| AssetLinks.CaptureSound | download_assets_core.py:158-173 | a line yields a reference only with the pattern's shape, and the reference runs from after the last such `storage="` to the line's last `"` |
| AssetLinks.CaptureSlice | download_assets_core.py:158-173 | a reference is a slice of its line |
| AssetLinks.Captures | download_assets_core.py:158-173 | a pattern yields at most one reference per line |
| AssetLinks.CapturesSound | download_assets_core.py:158-173 | every reference is the capture of one of the lines |
| AssetLinks.CapturesComplete | download_assets_core.py:158-173 | every line that matches contributes its capture |
| AssetLinks.CapturesNoNewline | download_assets_core.py:158-173 | no reference holds a newline |
| AssetLinks.InsertPcH | download_assets_core.py:165-166 | `_pc_h` goes in just before the last `-` of the value; a value without `-` is unchanged |
| AssetLinks.Basename | download_assets_core.py:103 | the text after the link's last `/`, or the whole link; it holds no `/` and ends the link |
| AssetLinks.PcHRemovedAlone | download_assets_core.py:103 | an inserted `_pc_h` before a character it does not hold is removed on its own |
| AssetLinks.InsertPcHRemoved | download_assets_core.py:103 | removing `_pc_h` undoes its insertion into a `bg` value (also lines 165-166) |
| AssetLinks.DespaceAround | download_assets_core.py:101 | deleting spaces works on each side of an inserted `_pc_h` and keeps the `-` after it |
| AssetLinks.JoinPathPcH | download_assets_core.py:102-103 | a file name with `_pc_h` before a `-` lands, once `_pc_h` is removed, where the name without it does |
| AssetLinks.DestPcHAt | download_assets_core.py:101-103 | a link with `_pc_h` just before a `-` is saved where the link without it is saved |
| AssetLinks.DestIgnoresPcH | download_assets_core.py:101-103 | a `bg` link is requested with `_pc_h` in its value, and the file is saved where the link without it would be (also lines 164-166) |
| AssetLinks.InsertPcHSplit | download_assets_core.py:165-166 | `_pc_h` goes before the last `-`, which starts the second part |
| AssetLinks.RefLinks | download_assets_core.py:157-173 | one pattern gives one link per captured reference, each under its base URL |
| AssetLinks.RefLinksStep | download_assets_core.py:158-159 | one more line adds the link of its capture, if it has one |
| AssetLinks.CollectRefs | download_assets_core.py:157-166 | the scan over the lines appends exactly the links `RefLinks` describes |
| AssetLinks.CollectLegacyLinks | download_assets_core.py:157-175 | the first batch is the face, music and background links in that order; the second the sound links |
| AssetLinks.JoinSplit | download_assets_core.py:172-173 | joining the pieces of a split with the separator gives the text back |
| AssetLinks.SoundDirPrefix | download_assets_core.py:172-173 | the sound folder is the start of the scenario path, all of it when the path has at most three segments |
| AssetLinks.ResourcePath | download_assets_core.py:195 | the scenario path up to its last `/`; with no `/` the slice drops the path's last character |
| AssetLinks.BgmNames | download_assets_core.py:200-201 | a section gives one `bgm` name exactly when it has the key |
| AssetLinks.JpgStrings | download_assets_core.py:207 | the `film` list gives exactly its string entries ending in `.jpg`, in order |
| AssetLinks.FilmNames | download_assets_core.py:204-210 | every `film` name ends in `.jpg` |
| AssetLinks.VoiceNames | download_assets_core.py:217-220 | the `talk` parts give at most one voice each, and the test raises exactly when some part does not support `in` |
| AssetLinks.HsceneLinksOf | download_assets_core.py:201-220 | each name gives the link `scenarios base + resource path + "/" + name` |
| AssetLinks.SectionsLinks | download_assets_core.py:198-220 | every hscene link is under the scenarios base and the resource path |
| AssetLinks.SectionsLinksStep | download_assets_core.py:198-220 | one more section appends its bgm, film and voice links, in that order, or raises |
| AssetLinks.SectionsLinksRaised | download_assets_core.py:198-220 | once a section raises, the whole list raises |
| AssetLinks.CollectHsceneLinks | download_assets_core.py:194-220 | the loop over the sections builds exactly the list `HsceneLinks` describes |
| AssetStore.Decide | download_assets_core.py:109-131 | an existing destination sends no request; else an ignored link sends none; else a 200 reply without an `<html>` prefix saves, a 404 marks the link for the ignore list, a failed request is dropped, and any other status is only logged — each outcome exactly in its case |
| AssetStore.Batch | download_assets_core.py:134-139 | a batch targets each link with its destination; a resource directory that is not a string makes every task raise, so the batch does nothing (also lines 175, 223) |
| AssetStore.StepEffect | download_assets_core.py:100-131 | one link adds itself to the ignore list exactly on a 404, adds its destination exactly on a saved file, and changes nothing else; nothing at all when the destination exists or the link is ignored |
| AssetStore.StepGrows | download_assets_core.py:100-131 | one link only appends to the ignore list, and only its own URL |
| AssetStore.StepsGrow | download_assets_core.py:134-139 | over a batch the ignore list only grows, and every new entry is the URL of one of the batch's links |
| AssetStore.ScriptText | download_assets_core.py:78-97 | an existing script is read as it is; otherwise the scenario is skipped exactly when the download answers with a status other than 200 (also lines 147-155, 183-192) |
| AssetStore.ScriptFilesPassed | download_assets_core.py:242-243 | the script file a scenario downloads is passed by when the walk reaches it |
| AssetStore.FileStepGrows | download_assets_core.py:241-253 | one scenario file only grows the store, whether or not it ends the run |
| AssetStore.WalkGrows | download_assets_core.py:238-253 | the whole walk only grows the store, up to its end or its first exception |
| AssetStore.WalkStopsAtCrash | download_assets_core.py:238-253 | once a file raises, the later files change nothing |
| AssetStore.SecondRunRepeats | download_assets_core.py:255-259 | as written, a second run in the same session appends the first run's new ignore entries again, so the file holds each of them twice (the count is set once, at lines 47-54) |
| AssetStore.SecondRunOnce | download_assets_core.py:255-259 | with the count moved on after each write, two runs leave the ignore file equal to the list, each new line new to the file and present once (with links handled one at a time) |
| AssetStore.Downloader.constructor | download_assets_core.py:43-54 | start-up loads the ignore file's lines (none when it is missing) and records their number |
| AssetStore.Downloader.DownloadAsset | download_assets_core.py:100-131 | one link changes the store exactly as `Step` says and takes the decision `Decide` gives for the despaced link |
| AssetStore.Downloader.DownloadAssets | download_assets_core.py:134-139 | a batch changes the store exactly as `Steps` says |
| AssetStore.Downloader.FetchScript | download_assets_core.py:78-97 | the script text is what `ScriptText` describes (also lines 147-155) |
| AssetStore.Downloader.DownloadLegacy | download_assets_core.py:142-175 | a legacy scenario downloads its two batches, changing the store as `LegacyStep` says |
| AssetStore.Downloader.DownloadHscene | download_assets_core.py:178-223 | an hscene scenario downloads its links, changing the store as `HsceneStep` says |
| AssetStore.Downloader.DownloadFile | download_assets_core.py:241-253 | one file is skipped when it is a script and dispatched on its `.ks` suffix otherwise |
| AssetStore.Downloader.DownloadFiles | download_assets_core.py:238-253 | the walk processes the files in order up to the first one that raises |
| AssetStore.Downloader.RunAsWritten | download_assets_core.py:228-265 | the run walks the files, then appends the entries beyond the start-up count, which stays where it was |
| AssetStore.Downloader.Run | download_assets_core.py:228-265 | the corrected run leaves the ignore file equal to the list after a completed run and moves the count on; each new entry appears once when links are handled one at a time |

## Left out

- HTTP, the file system and `os.walk`/`os.listdir` are inputs. Responses come from an oracle keyed by URL; existing folders and assets are sets; the walked scenario files are a sequence of parsed records. The JSON and scene files the workflows save, and the bytes of downloaded assets, are not modelled.
- Thread pools and `as_completed`: workers run one after another in submission order. The model does not capture completion order or any interleaving. In the asset downloader the order of the ignore entries therefore follows link order. That each new ignore entry appears once (`AssetStore.Grown`, `AssetStore.SecondRunOnce`, `AssetStore.Downloader.Run`) also rests on this one-at-a-time handling: two concurrent workers given the same link (download_assets_core.py:112-139) can both find it missing from the list and both append it, so with threads the corrected behaviour would also need the append to skip a URL already on the list.
- RunDownloadConsistent and ApplyRowConsistent (through `Dispatch.Consistent`): distinct new folders and one portrait per created folder hold because the workers run one at a time. In the program the pool's workers run at once. Two ids with the same rarity and safe name can both pass `os.path.exists(save_dir)` before either calls `os.makedirs(..., exist_ok=True)` (download_json_core.py:284-287; likewise 473-476 and 621-624). That gives two rows for one folder and two portrait downloads, which the model does not capture.
- AppendNew, Downloader.Run, Downloader.RunAsWritten, SecondRunOnce, SecondRunRepeats: ignore.txt is a sequence of lines, and an append adds whole lines. The program reads the file with `splitlines()` and appends `link + '\n'` as text (download_assets_core.py:51, 257-259). "The file equals the list" is therefore not promised for two inputs. One is a file that does not end in a newline, where the first appended link joins its last line. The other is a link holding a character `splitlines()` breaks at other than `\n` (`\r`, `\x0b`, `\x0c`, `\x1c`-`\x1e`, `\x85`, `\u2028`, `\u2029`), which reads back as several entries.
- Repr: Python's `repr` is modelled without escapes. It always quotes strings with `'`, whereas Python picks `"` for a string that holds `'` and no `"`. It writes backslashes and control characters unescaped. It prints every raw member of an object, whereas a dict that `json.loads` built shows each key once, with the last value. This matters only where a non-string value is formatted into text: `f"{rarity} Kamihime"` for the rank and folder, and the hscene link names.
- The Blowfish cipher under the fixed key is an arbitrary function on 8-byte blocks. The properties that decrypt assume an inverse exists.
- `float()` parsing is exact decimal arithmetic over the digits, signs, underscores, points and exponents `float` accepts. `inf`, `nan` and binary rounding of thresholds with more than three decimals are not modelled. `round(band * 1000)` is rounding half to even on the exact value. A threshold such as `kamihime_inf` or `kamihime_1e400` makes `int(round(band * 1000))` (download_json_core.py:114) raise `OverflowError` outside any `try`, which ends the run; the model instead gives the exact value or rejects the text. Thresholds above 2^53 are rounded by `float` and are not exact there, while the model keeps them exact.
- `Base.ParseInt` and `Bands.ParseFloat` accept only the ASCII digits `0`-`9`; Python's `int()` and `float()` also accept other Unicode decimal digits (for example Arabic-Indic or full-width digits), which the model rejects.
- `AssetLinks.JoinPath` joins with `/` as `posixpath.join` does; on Windows `os.path.join` is `ntpath.join`, which also treats `\` and drive letters as separators and roots. The model does not capture Windows path rules.
- `AssetLinks.Lines` splits scripts at `\n` only. Files read in text mode turn a lone `\r` and `\r\n` into `\n` (download_assets_core.py:83, 154-155, 191-192); a script with bare `\r` line ends is therefore one line in the model but several in the program, and a `\r` before a `\n` stays at the end of the line in the model.
- JSON numbers are integers only; floating-point members of API responses are not modelled. `json.loads`/`json.dumps` are a parser parameter and identity, respectively; the validation `json.dumps` in the repair tool is taken to succeed.
- Status 440 on an info request ends the whole run without a result (`Dispatch.RunDownload` gives `Exited`). The exit ends the download thread only: the application keeps running and unlocks its interface. The model does not describe what other threads had done before the exit: folders they created stay on disk without an index row, and later runs skip those ids because the folder exists (download_json_core.py:285-287).
- Logging, `print`, the Tk user interface (`DownloadApp`, `TextHandler`), `save_latest_txt` and the `configparser` thread settings are not modelled.
- `kamihime_default_bands` and `parse_eidolon_bands_from_spec` (download_json_core.py:74-88) are not modelled because nothing calls them. The same goes for `add_index_row` and `write_index_csv` (download_json_core.py:186-205), since `index_rows` is never appended to.
- `run_download_json`'s optional call to `process_root` over the save folder (download_json_core.py:863-868) is not composed into `Dispatch.RunDownload`. `JsonRepair.ProcessRoot` models that walk on its own.
- On a failed asset request, `retry_links.append(link, resource_directory)` raises `TypeError` inside a worker whose result is never read. The model treats such a link as dropped, and no retry behaviour is modelled.
- `csv.DictReader`/`DictWriter` quoting is not modelled. The stored table is an input of rows, and the saved file is a sequence of lines of fields.
- IndexCsv.RowLe: a Rank or Name value that is not a string is compared by its `str()` text. Python would raise `TypeError` comparing it with a string. The workflows only produce string names and ranks.
- `download_image`'s result is not modelled. `Portrait.DownloadPortrait` gives the (URL, file) pairs requested.

## Findings

| source | as written | input that shows it | evidently intended | confidence | as-written member | corrected member |
|---|---|---|---|---|---|---|
| download_assets_core.py:255-259 | the count of ignore entries loaded at import (lines 47-54) is never moved on after the new entries are appended to ignore.txt | two asset runs in one session of the app (app.py:263-299), where the first run's links answer 404: the second run appends those links again, so ignore.txt holds them twice | append each new entry once, moving the count on to the list's length after each write | not executed | AssetStore.SecondRunRepeats, AssetStore.Downloader.RunAsWritten | AssetStore.SecondRunOnce, AssetStore.Downloader.Run |
