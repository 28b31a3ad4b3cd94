# Termo București scraper, modelled in Dafny

This project models the core of the Termo București Home Assistant integration. The integration
scrapes the outage pages of the Bucharest district-heating operator (CMTEB) and turns them into
entity states. The core has two pipelines:

- **Interruption extractor and alerts** (`binary_sensor.py`).
  - The raw HTML is split at block-tag boundaries (`</?div|</?tr|</?p|</?li`).
  - The sections that name the configured street and an interruption keyword are kept.
  - Each kept section becomes an interruption record. The record holds a service type, a cause, an
    estimated date and an estimated time, each found by its own probe.
  - Three binary sensors filter the records into on/off alerts with attributes. The sensors are
    hot water, heating and general.
- **Status mapper** (`sensor.py`).
  - `CMTEBData` resets a five-key record to its defaults.
  - For every element that mentions the street or the thermal point, it reads table rows, or
    `header: value` lines of text.
  - An ordered keyword cascade maps each header to at most one field.
  - Status values are normalised to `Oprită` / `Funcționează` or passed through.
  - A status sensor picks its icon from its state.

Modules:

- `text.dfy` (`Text`): the string primitives both pipelines share.
  - Lower-casing.
  - Python whitespace.
  - Substring tests (`w in s`).
  - `str.strip()`.
  - Splitting at a separator: the block-tag regex or `'\n'`.
- `probes.dfy` (`Probes`): the pure probes.
  - The service type.
  - The text cleaner (`_clean_text`).
  - A hand-written matcher for each of the four regular expressions (the two cause patterns, the
    date and the time).
  - A leftmost search shared by all four, as `re.search` does.
- `alerts.dfy` (`Alerts`): the extractor loop `ParseInterruptionData` and the three
  binary-sensor classes.
  - The classes' fields are the entity attributes that `_update_binary_state` assigns.
  - The list filters are specified by `Filter` and `Affecting`.
- `status.dfy` (`Status`): `_parse_status` and the keyword cascades.
  - The class `CMTEBData`, whose `data` map the scanning methods update in place. Each method is
    specified by a function over the old map (`ApplyRows`, `ApplyLines`, `ApplyElements`,
    `ParsedData`).
  - The status sensor with its icon.

How the model is built:

- Network access, BeautifulSoup and the clock are outside the model. An HTML page is a string.
- A parsed page is a sequence of `Element(name, text, rows)`.
  - The tables come first in the sequence, then the classed divs.
  - `text` is `get_text()`.
  - `rows` holds, for each `tr`, the texts of its `td`/`th` cells.
- Timestamps (`detectat_la`, the poll time) are opaque strings passed in.

Properties the model proves:

- The service type is one of three values and hot water takes precedence (`ExtractServiceType`).
- The cleaner's output has no tag, no leading or trailing white space, and no run of white space.
  The cleaner is idempotent (`CleanText`, `CleanTextIdempotent`).
- Tag stripping and whitespace collapsing are pinned down piece by piece. Text without `<` is
  kept, a whole tag `<m>` is dropped, and `<>` is kept because it is no tag (`StripTagsPlain`,
  `StripTagsTag`, `StripTagsEmptyBrackets`). Text without white
  space is kept, and a maximal run of white space becomes one blank (`CollapsePlain`,
  `CollapseRun`).
- The cause:
  - is the cleaned group of the first pattern that matches;
  - is the sentinel `Nespecificat` when neither pattern matches (`ExtractCause`);
  - when the first pattern matches, is taken from that pattern alone.
- The date and the time are `Nespecificat` exactly when no substring has the required shape.
  Otherwise they are the leftmost shaped substring (`ExtractEstimatedDate`,
  `ExtractEstimatedTime`).
- Splitting the page loses nothing: the pieces joined with the cut separators give back the text
  (`SplitJoin`), and no piece holds a separator.
- Interruption records match the relevant sections one for one, in order. `total_gasite` is the
  number of records. Every record carries the configured street.
- For each alert sensor:
  - it is on exactly when a record of its services exists;
  - its count equals the filtered length;
  - its attributes come from the first such record.
- After `_parse_html`, `data` has exactly the five keys.
  - A page with nothing relevant leaves the defaults.
  - Irrelevant elements change nothing.
  - Rows with fewer than two cells change nothing, and only the first two cells are read.
  - A line is split at its first `:`. Lines without `:` change nothing.
  - Each row or line sets at most one field, the first in cascade order.
  - Every value comes from the page, or is a default or one of the two normalised states
    (`ParsedDataPlausible`).
- `_parse_status` and the icon follow their keyword lists. The stop words take precedence, and
  normalising twice is normalising once.

## Model

Source paths are relative to the repository root.

| member | source | states |
|---|---|---|
| Text.LowerIdempotent | custom_components/termo_bucuresti/binary_sensor.py:73 | lower-casing text that is already lower-case changes nothing |
| Text.LowerKeepsSymbol | custom_components/termo_bucuresti/sensor.py:115-118 | lower-casing neither creates nor removes white space, digits, ':', '<', '>', '.' or '/' |
| Text.IsSpace | custom_components/termo_bucuresti/binary_sensor.py:136 | the characters `\s` and `str.strip()` treat as white space |
| Text.Contains | custom_components/termo_bucuresti/binary_sensor.py:75 | Python's `w in s`: `w` occurs in `s` at some index |
| Text.ContainsAny | custom_components/termo_bucuresti/binary_sensor.py:77-80 | `any(word in s for word in words)` |
| Text.Strip | custom_components/termo_bucuresti/sensor.py:93-94 | the result has no white space at either end and occurs in the input, with only white space cut from each side |
| Text.StripContained | custom_components/termo_bucuresti/sensor.py:114 | a stripped line is a substring of the line |
| Text.StripOfTrimmed | custom_components/termo_bucuresti/binary_sensor.py:137 | stripping a text without white space at its ends changes nothing |
| Text.SepLen | custom_components/termo_bucuresti/binary_sensor.py:70 | the length of the separator that starts a text: '<', an optional '/', then `div`, `tr`, `p` or `li` in the order the alternation lists them; for `split('\n')` a newline; 0 when none starts there |
| Text.SepLenPrefix | custom_components/termo_bucuresti/binary_sensor.py:70 | whether a block tag starts a text is decided by that tag's own characters |
| Text.Split | custom_components/termo_bucuresti/binary_sensor.py:70 | a split yields at least one piece |
| Text.Cuts | custom_components/termo_bucuresti/binary_sensor.py:70 | the separators a split cuts out, one between each two neighbouring pieces, each a whole separator match |
| Text.SplitJoin | custom_components/termo_bucuresti/binary_sensor.py:70 | the pieces joined with the cut separators between them give back the text, so a split loses and reorders nothing |
| Text.SplitFirstIsPrefix | custom_components/termo_bucuresti/binary_sensor.py:70 | the first piece is a prefix of the text |
| Text.SplitPiecesContained | custom_components/termo_bucuresti/binary_sensor.py:70 | every piece is a substring of the split text |
| Text.SplitPiecesSeparatorFree | custom_components/termo_bucuresti/sensor.py:112 | no piece contains a separator |
| Text.SplitOfSeparatorFree | custom_components/termo_bucuresti/sensor.py:112 | a text without separators splits into itself alone |
| Probes.ExtractServiceType | custom_components/termo_bucuresti/binary_sensor.py:98-105 | hot water whenever 'apă caldă' occurs; heating exactly when it does not but 'căldură' or 'încălzire' does; otherwise the thermal service |
| Probes.StripTags | custom_components/termo_bucuresti/binary_sensor.py:135 | the result contains no `<…>` tag and only characters of the input |
| Probes.TagEnd | custom_components/termo_bucuresti/binary_sensor.py:135 | where a `<[^>]+>` tag that opens the text ends: at the first '>' after the '<', which lies at index 2 or later; there is no tag exactly when the text starts `<>` or has no later '>' |
| Probes.StripTagsPlain | custom_components/termo_bucuresti/binary_sensor.py:135 | text without '<' in front of the rest is kept as it is, and the rest is stripped on its own |
| Probes.StripTagsTag | custom_components/termo_bucuresti/binary_sensor.py:135 | a whole tag `<m>`, with `m` non-empty and free of '>', is removed and stripping goes on after its '>' |
| Probes.StripTagsEmptyBrackets | custom_components/termo_bucuresti/binary_sensor.py:135 | `<>` opens no tag, because `[^>]+` needs a character: it is kept and stripping goes on after it |
| Probes.StripTagsOfTagFree | custom_components/termo_bucuresti/binary_sensor.py:135 | removing tags from tag-free text changes nothing |
| Probes.CollapseSpaces | custom_components/termo_bucuresti/binary_sensor.py:136 | the result has no run of white space and no white space other than ' ', and is empty exactly when the input is |
| Probes.CollapsePlain | custom_components/termo_bucuresti/binary_sensor.py:136 | text without white space in front of the rest is kept as it is, and the rest is collapsed on its own |
| Probes.CollapseRun | custom_components/termo_bucuresti/binary_sensor.py:136 | a maximal run of white space becomes exactly one ' ' |
| Probes.CollapseKeepsChars | custom_components/termo_bucuresti/binary_sensor.py:136 | collapsing only adds ' ' to the input's characters |
| Probes.CollapseKeepsTagFree | custom_components/termo_bucuresti/binary_sensor.py:135-136 | collapsing white space cannot create a tag |
| Probes.CollapseOfCollapsed | custom_components/termo_bucuresti/binary_sensor.py:136 | collapsing already-collapsed text changes nothing |
| Probes.CleanText | custom_components/termo_bucuresti/binary_sensor.py:133-137 | the cleaned text is tag-free and trimmed, with no white-space run and only ' ' as white space |
| Probes.StripKeepsCleanShape | custom_components/termo_bucuresti/binary_sensor.py:137 | stripping keeps text tag-free, run-free and plain-spaced |
| Probes.CleanTextOfCleaned | custom_components/termo_bucuresti/binary_sensor.py:133-137 | cleaning text that is already clean returns it unchanged |
| Probes.CleanTextIdempotent | custom_components/termo_bucuresti/binary_sensor.py:133-137 | cleaning twice equals cleaning once |
| Probes.GapEnd | custom_components/termo_bucuresti/binary_sensor.py:110-111 | the greedy run of the `[:\s]*` / `[\s]*` class ends at the first character outside it |
| Probes.StopFrom | custom_components/termo_bucuresti/binary_sensor.py:110-111 | the greedy `[^\.\n]+` run ends at the first '.' or newline, or at the end |
| Probes.GroupStart | custom_components/termo_bucuresti/binary_sensor.py:110-111 | backtracking out of the gap run: the latest start at most the gap's end where a non-stop character begins the group, or none when every such position is a stop or the end |
| Probes.KeywordAt | custom_components/termo_bucuresti/binary_sensor.py:110-115 | the pattern's keyword (`cauză` or `motiv`, or `datorită`) occurs at the index, compared case-insensitively |
| Probes.CauseMatchAt | custom_components/termo_bucuresti/binary_sensor.py:110-111 | a cause pattern tried at one index: its group, when there is one, is non-empty and lies in the text. `CauseMatchAtSpec` states exactly when it matches and where the group lies |
| Probes.CauseMatchAtSpec | custom_components/termo_bucuresti/binary_sensor.py:109-111 | a cause pattern matches at an index exactly when its keyword occurs there, ignoring case, and a group can start after the gap. The group starts as late as backtracking allows and runs to the first '.' or newline |
| Probes.DigitsEnd | custom_components/termo_bucuresti/binary_sensor.py:123 | a greedy `\d{1,n}` run: at most n digits, and it stops at a non-digit |
| Probes.ShapeMatchAt | custom_components/termo_bucuresti/binary_sensor.py:123-130 | the date or time pattern tried at one index: a match starts there and ends in the text. `ShapeMatchAtSound` and `ShapeMatchAtComplete` state exactly what it matches |
| Probes.ShapeMatchAtSound | custom_components/termo_bucuresti/binary_sensor.py:123-130 | a date or time match at an index covers a substring of the required shape |
| Probes.ShapeMatchAtComplete | custom_components/termo_bucuresti/binary_sensor.py:123-130 | any shaped substring starting at an index is the match found there |
| Probes.DateMatchesAt | custom_components/termo_bucuresti/binary_sensor.py:123 | a substring shaped as a date is matched at its start |
| Probes.TimeMatchesAt | custom_components/termo_bucuresti/binary_sensor.py:129 | a substring shaped as a time is matched at its start |
| Probes.MatchAt | custom_components/termo_bucuresti/binary_sensor.py:109-130 | each of the four patterns tried at one index: a group, when there is one, lies in the text |
| Probes.FirstMatchFrom | custom_components/termo_bucuresti/binary_sensor.py:115 | a scan from left to right returns the first index where the matcher succeeds, or reports that none does |
| Probes.Search | custom_components/termo_bucuresti/binary_sensor.py:115 | `re.search` returns the leftmost match with its group, and fails exactly when no index matches |
| Probes.ExtractCause | custom_components/termo_bucuresti/binary_sensor.py:107-119 | the cleaned group of the leftmost match of the `cauză` or `motiv` pattern. Only when that pattern finds nothing is `datorită` tried. The sentinel comes when neither matches. The result is the sentinel or clean text |
| Probes.UnspecifiedNotShaped | custom_components/termo_bucuresti/binary_sensor.py:125 | the sentinel is neither a date nor a time, so it cannot be confused with a found value |
| Probes.ShapeSearch | custom_components/termo_bucuresti/binary_sensor.py:123-131 | the search fails exactly when no substring is shaped. Otherwise it returns the leftmost shaped substring |
| Probes.ExtractEstimatedDate | custom_components/termo_bucuresti/binary_sensor.py:121-125 | the sentinel exactly when no substring is shaped `d{1,2}[./]d{1,2}[./]d{4}`, otherwise the leftmost such substring |
| Probes.ExtractEstimatedTime | custom_components/termo_bucuresti/binary_sensor.py:127-131 | the sentinel exactly when no substring is shaped `d{1,2}:dd`, otherwise the leftmost such substring |
| Alerts.IsRelevant | custom_components/termo_bucuresti/binary_sensor.py:73-82 | the lower-case section holds the lower-case street and one of the eight interruption keywords |
| Alerts.RelevanceIgnoresCase | custom_components/termo_bucuresti/binary_sensor.py:66-75 | the relevance test does not depend on the case of the configured street or of the section |
| Alerts.RecordOf | custom_components/termo_bucuresti/binary_sensor.py:83-90 | the record of a relevant section: the configured street, the four probes run on the section, and the pass's timestamp |
| Alerts.FilterMap | custom_components/termo_bucuresti/binary_sensor.py:72-91 | keeping and building produces at most one element per input. `FilterMapSound` and `FilterMapComplete` state which |
| Alerts.FilterMapSound | custom_components/termo_bucuresti/binary_sensor.py:72-91 | every element of the kept-and-built list is built from a kept input |
| Alerts.FilterMapComplete | custom_components/termo_bucuresti/binary_sensor.py:72-91 | every kept input's built element is in the list |
| Alerts.Candidates | custom_components/termo_bucuresti/binary_sensor.py:72-91 | at most one record per section |
| Alerts.CandidatesStep | custom_components/termo_bucuresti/binary_sensor.py:72-91 | one more section appends its record exactly when it is relevant, which is what one loop iteration does |
| Alerts.CandidatesSound | custom_components/termo_bucuresti/binary_sensor.py:72-91 | every record carries the configured street and comes from a section naming the street and a keyword |
| Alerts.CandidatesComplete | custom_components/termo_bucuresti/binary_sensor.py:72-91 | every relevant section yields its record |
| Alerts.ParseInterruptionData | custom_components/termo_bucuresti/binary_sensor.py:64-96 | the loop returns the records of the relevant sections in order. `total_gasite` is their number, at most the number of sections |
| Alerts.Filter | custom_components/termo_bucuresti/binary_sensor.py:157-160 | the comprehension is no longer than its input, and non-empty exactly when some element is kept |
| Alerts.FilterFirst | custom_components/termo_bucuresti/binary_sensor.py:165 | the first kept element is the first element satisfying the test |
| Alerts.FilterMultiset | custom_components/termo_bucuresti/binary_sensor.py:157-160 | the comprehension keeps every occurrence of a kept element and nothing else |
| Alerts.Affecting | custom_components/termo_bucuresti/binary_sensor.py:157-160 | the records of the given services, no more than the input. `AffectingSpec` states which |
| Alerts.AffectingSpec | custom_components/termo_bucuresti/binary_sensor.py:156-165 | the records of the given services are the input records of those services. The list is non-empty exactly when such a record exists, and its head is the first one |
| Alerts.ServiceAlertAttributes | custom_components/termo_bucuresti/binary_sensor.py:164-177 | when on: the first record's cause, date, time and detection time, plus the count. When off: only the last-check time |
| Alerts.GeneralAlertAttributes | custom_components/termo_bucuresti/binary_sensor.py:234-249 | when on: the first record's fields and the total. When off: a total of 0 and the last-check time |
| Alerts.GeneralTotalIsCount | custom_components/termo_bucuresti/binary_sensor.py:241-247 | `total_intreruperi` is always the number of records |
| Alerts.HotWaterAlertSensor.constructor | custom_components/termo_bucuresti/binary_sensor.py:146-152 | off, no attributes yet, icon `mdi:water-alert`; via the base `__init__` (lines 34-39), no records and no last update |
| Alerts.HotWaterAlertSensor.UpdateBinaryState | custom_components/termo_bucuresti/binary_sensor.py:154-178 | on exactly when some record is hot water or thermal service. The attributes come from those records and the icon from the state |
| Alerts.HotWaterAlertSensor.Refresh | custom_components/termo_bucuresti/binary_sensor.py:52-56 | a successful poll parses the page (records stamped with the detection time, `total_gasite` their number), updates the state, the attributes with the previous poll time and the icon (`mdi:water-alert` or `mdi:water-check` by state), then records the new poll time |
| Alerts.HeatingAlertSensor.constructor | custom_components/termo_bucuresti/binary_sensor.py:183-189 | off, no attributes yet, icon `mdi:radiator-alert`; via the base `__init__` (lines 34-39), no records and no last update |
| Alerts.HeatingAlertSensor.UpdateBinaryState | custom_components/termo_bucuresti/binary_sensor.py:191-215 | on exactly when some record is heating or thermal service. The attributes come from those records and the icon from the state |
| Alerts.HeatingAlertSensor.Refresh | custom_components/termo_bucuresti/binary_sensor.py:52-56 | a successful poll parses the page (records stamped with the detection time, `total_gasite` their number), updates the state, the attributes with the previous poll time and the icon (`mdi:radiator-alert` or `mdi:radiator` by state), then records the new poll time |
| Alerts.GeneralAlertSensor.constructor | custom_components/termo_bucuresti/binary_sensor.py:220-226 | off, no attributes yet, icon `mdi:alert-circle`; via the base `__init__` (lines 34-39), no records and no last update |
| Alerts.GeneralAlertSensor.UpdateBinaryState | custom_components/termo_bucuresti/binary_sensor.py:228-250 | on exactly when some record exists, with `total_intreruperi` equal to their number. The icon comes from the state |
| Alerts.GeneralAlertSensor.Refresh | custom_components/termo_bucuresti/binary_sensor.py:52-56 | a successful poll parses the page (records stamped with the detection time, `total_gasite` their number), updates the state, the attributes with the previous poll time and the icon (`mdi:alert-circle-outline` or `mdi:check-circle-outline` by state), then records the new poll time |
| Status.ParseStatus | custom_components/termo_bucuresti/sensor.py:135-146 | empty text is unknown. A stop word gives `Oprită`, even with a running word present. Otherwise a running word gives `Funcționează`, and any other text is returned unchanged |
| Status.StoppedIsStop | custom_components/termo_bucuresti/sensor.py:141-142 | `Oprită` itself contains a stop word |
| Status.RunningIsNotStop | custom_components/termo_bucuresti/sensor.py:141-144 | `Funcționează` contains no stop word |
| Status.RunningIsRunning | custom_components/termo_bucuresti/sensor.py:143-144 | `Funcționează` contains a running word |
| Status.UnknownIsNotStop | custom_components/termo_bucuresti/sensor.py:137-142 | `Necunoscut` contains no stop word |
| Status.UnknownIsNotRunning | custom_components/termo_bucuresti/sensor.py:137-144 | `Necunoscut` contains no running word |
| Status.ParseStatusIdempotent | custom_components/termo_bucuresti/sensor.py:135-146 | normalising a normalised status changes nothing |
| Status.Classify | custom_components/termo_bucuresti/sensor.py:97-106 | a header maps to at most one field of the cascade |
| Status.ClassifySpec | custom_components/termo_bucuresti/sensor.py:97-106 | no field exactly when no rule's words occur. Otherwise the field of the first rule whose words occur |
| Status.HotWaterFirst | custom_components/termo_bucuresti/sensor.py:121-130 | a hot-water header is hot water in both cascades, whatever else it contains |
| Status.ApplyEntry | custom_components/termo_bucuresti/sensor.py:97-106 | a row sets exactly the classified field, to the normalised status or to the raw value, and leaves every other key alone. An unclassified header changes nothing |
| Status.ApplyRow | custom_components/termo_bucuresti/sensor.py:91-106 | one table row: the stripped, lower-cased first cell is the header and the stripped second cell the value. It only ever adds one of the five keys. `RowReadsTwoCells` and `ApplyEntry` state its effect |
| Status.RowReadsTwoCells | custom_components/termo_bucuresti/sensor.py:91-94 | rows with fewer than two cells change nothing, and only the first two cells are read |
| Status.ApplyRows | custom_components/termo_bucuresti/sensor.py:90-106 | the rows in order. Keys stay within the existing ones and the five |
| Status.ApplyRowsStep | custom_components/termo_bucuresti/sensor.py:90-106 | one more row applies that row to the result so far, which is one iteration of the row loop |
| Status.SplitAtFirstColon | custom_components/termo_bucuresti/sensor.py:115-117 | a split exists exactly when the line has ':'. The prefix has no ':', and the parts rebuild the line |
| Status.ApplyLine | custom_components/termo_bucuresti/sensor.py:113-130 | one text line: stripped, split at its first ':', header stripped and lower-cased, value stripped. It only ever adds one of the five keys |
| Status.LineWithoutColonIgnored | custom_components/termo_bucuresti/sensor.py:115 | a line without ':' changes nothing |
| Status.LineHeaderHasNoColon | custom_components/termo_bucuresti/sensor.py:116-118 | the header is cut at the first ':', so it contains none |
| Status.LineValueContained | custom_components/termo_bucuresti/sensor.py:119 | the value (which may contain ':') is a substring of the line |
| Status.ApplyLines | custom_components/termo_bucuresti/sensor.py:112-130 | the lines in order. Keys stay within the existing ones and the five |
| Status.ApplyLinesStep | custom_components/termo_bucuresti/sensor.py:112-130 | one more line applies that line to the result so far, which is one iteration of the line loop |
| Status.MentionsPlace | custom_components/termo_bucuresti/sensor.py:81-84 | the element's lower-case text holds the lower-case street or the lower-case thermal point |
| Status.ApplyElement | custom_components/termo_bucuresti/sensor.py:81-84 | an element that mentions neither the street nor the thermal point changes nothing |
| Status.ApplyElements | custom_components/termo_bucuresti/sensor.py:80-130 | the elements in order. Keys stay within the existing ones and the five |
| Status.ApplyElementsStep | custom_components/termo_bucuresti/sensor.py:80-130 | one more element applies that element to the result so far, which is one iteration of the element loop |
| Status.ParsedData | custom_components/termo_bucuresti/sensor.py:64-78 | the parsed record has exactly the five keys |
| Status.ApplyElementsAppend | custom_components/termo_bucuresti/sensor.py:78-80 | scanning tables then divs is scanning their concatenation |
| Status.IrrelevantElementIgnored | custom_components/termo_bucuresti/sensor.py:80-84 | dropping an irrelevant element from the page does not change the result |
| Status.NothingRelevantKeepsDefaults | custom_components/termo_bucuresti/sensor.py:64-84 | with no relevant element every field keeps its default |
| Status.ParsedDataPlausible | custom_components/termo_bucuresti/sensor.py:64-130 | every status field is a default, a normalised state or text from the page. Every other field is a default or text from the page |
| Status.CMTEBData.constructor | custom_components/termo_bucuresti/sensor.py:38-43 | the data map starts empty |
| Status.CMTEBData.ScanRows | custom_components/termo_bucuresti/sensor.py:89-106 | the row loop updates `data` as the rows specify, in order |
| Status.CMTEBData.ScanLine | custom_components/termo_bucuresti/sensor.py:113-130 | one line updates `data` as it specifies |
| Status.CMTEBData.ScanLines | custom_components/termo_bucuresti/sensor.py:111-130 | the line loop updates `data` as the newline-split lines specify, in order |
| Status.CMTEBData.ScanElement | custom_components/termo_bucuresti/sensor.py:80-130 | one element is skipped, read as a table, or read as lines |
| Status.CMTEBData.ParseHtml | custom_components/termo_bucuresti/sensor.py:59-133 | after parsing, `data` is the defaults updated by every relevant table and then every relevant div |
| Status.StatusSensor.constructor | custom_components/termo_bucuresti/sensor.py:151-159 | the state starts empty |
| Status.StatusSensor.Refresh | custom_components/termo_bucuresti/sensor.py:175-178 | the state becomes the sensor's key in the data, or `Necunoscut` when missing |
| Status.StatusSensor.Icon | custom_components/termo_bucuresti/sensor.py:183-191 | `mdi:alert-octagram` exactly for `Oprită`, `mdi:check-circle` exactly for `Funcționează`, `mdi:help-circle` otherwise |
| Status.IconOfParsedStatus | custom_components/termo_bucuresti/sensor.py:135-191 | for a normalised state, the alarm icon appears exactly when the text has a stop word. The check icon appears exactly when it has a running word and no stop word |

## Left out

- HTTP fetching, sessions, `Throttle` and `SCAN_INTERVAL` are outside the model. The `Refresh` methods model a successful poll whose page text is given.
- The modelled `Refresh` methods omit non-200 responses and exceptions, which only set `_attr_available` or log.
- BeautifulSoup is not modelled. A parsed page is a sequence of elements (name, `get_text()`, the cell texts of each row), with the tables before the classed divs, as `tables + divs`.
- Python's regex engine is not modelled. Each of the four patterns has its own hand-written matcher, including the backtracking of the greedy `[:\s]*` / `[\s]*` run before `[^\.\n]+`: it gives back as many characters as needed for the group to begin at a character that is not '.' or a newline (`GroupStart`).
- Text.IsDigit: accepts only `0`–`9`. In Python 3 `str` patterns `\d` matches every Unicode decimal digit, so the date and time probes of the model find fewer matches on text with other digits.
- Probes.MatchesIgnoringCase: compares through `LowerChar`. Python's `re.IGNORECASE` also matches `ı` (U+0131) and `İ` (U+0130) against the `i` of `motiv` and `datorită`; the model does not.
- Text.Lower: lower-cases only ASCII letters and the upper-case Romanian letters. Other characters are kept as they are. Full Unicode case mapping is not modelled.
- Text.IsSpace: covers ASCII and Latin-1 white space only, not every Unicode space that `\s` and `str.strip()` accept.
- Timestamps are opaque strings passed in. `Refresh` takes `detectedAt` for `detectat_la` and `polledAt` for `_last_update`. The source reads the clock once per record; the model stamps every record of one poll with the same `detectedAt`.
- In `ultima_verificare`, `_update_binary_state` runs before `_last_update` is set. The attribute therefore shows the previous poll's time, and `Refresh` states this with `old(lastUpdate)`.
- The attribute `ultima_verificare` is either that time string or a missing value (`None`); the ISO formatting is not modelled.
- Entity names, unique ids, device classes and the `CMTEBSensor` user-facing properties are not modelled. Only the `state` and `icon` logic is.
- `async_setup_entry` in both files is not modelled.
- `sensor.py` imports `CONF_STREET`, `BASE_URL` and `SCAN_INTERVAL` from `const.py`, which defines none of them, so as written the module fails to import and the status pipeline never runs. The model describes `sensor.py` as if those names resolved.
- `__init__.py`, `diagnostics.py`, `config_flow.py` and `const.py` are not part of this model (platform glue, a form schema, and constants). The few constants needed are inlined.
- Probes.ExtractCause: the sentinel is guaranteed when no pattern matches; the converse is not claimed. A cause text that itself reads `Nespecificat` is returned as it is, so the result alone cannot tell the two cases apart.
