# scrapscript.js, modelled in Dafny

`scrapscript.js` builds the champion statistics snapshot of the draft app. It
reads the champion catalog of a game patch and normalises it to `{id, slug}`
pairs. Then, for every champion and every one of the five roles (top, jungle,
mid, adc, support), it scrapes one statistics page and keeps four values from
it: the tier grade, the win rate, the pick rate and the ban rate. Each
champion gets one record, with per-role maps for the tier, win rate and pick
rate, and one ban rate. That ban rate comes from the first role, in table
order, that has one.

This project models three pieces of that script and proves what they promise:

- **The extractor** (`getStats`) is an imperative method (`Extractor.GetStats`) with a loop over the page's block containers. The loop is proved against a fold (`Extractor.Scan`) that upholds these properties:
  - Every field is the last write to it in document order.
  - A container writes at most one field.
  - Labels are dispatched with a fixed priority: win rate, then pick rate, then ban rate.
  - A failed fetch gives the all-null record.
  - Every value found lies in its domain.
- **The token grammar** (`Tokens`) covers the percentage pattern `^<?\s*\d{1,2}(\.\d{1,2})?%$` and the tier pattern `^[SABCDEF\?][\+\-]?$` with the `i` flag:
  - The percentage test is proved to accept exactly the texts the pattern describes, in both directions.
  - The value read out of a percentage is the decimal its digits spell.
  - Upper-casing a tier token gives a grade.
- **The catalog normalisation** (`getAllChampions`) is a pure function (`Catalog.AllChampions`). It keeps the catalog's order and length, and every slug is the lower-cased id.
- **The aggregation loop** is an imperative method (`Aggregator.Aggregate`) with the two nested loops of the source. It is proved against a specification (`Aggregator.Snapshot`). The lemmas about that specification give:
  - one record per champion, in order;
  - maps keyed by exactly `{top, jgl, mid, bot, sup}`, each entry holding its own role's statistics;
  - the first-non-null ban rate;
  - a failed role that is null in all three maps.

Modelling choices:

- **Percentages** are exact numbers of hundredths of a percent: "73%" is 7300 and "< 52.05%" is 5205. The pattern allows at most two integer digits and two fractional digits, so every value lies between 0 and 9999.
- **The statistics site** is a function `Upstream` from a URL to a `PageResult`. A result is either the fetched page or `Failed`, which stands for any exception thrown while fetching or parsing.
- **A page** is the sequence of its `div`s in document order. Each `div` is stored with its own text and the text of its next sibling element, both untrimmed. A `div` with no next sibling has the empty string there.
- **The version feed and the catalog request** are not modelled. The patch and the catalog's values arrive as parameters.

Repeated matches: each match overwrites the field, so when several containers on a page match the same statistic, the last one in document order wins. `Extractor.ScanIsLastWrite` and `Extractor.ScanLastMatch` state this rule and prove it.

## Model

| member | source | states |
|---|---|---|
| Extractor.GetStats | scrapscript.js:31-81 | The statistics of the page at `u.gg/lol/champions/<slug>/build/<role>` are the container-by-container fold of that page, starting from all-null; a failed fetch or parse gives all four fields null |
| Extractor.VisitDiv | scrapscript.js:44-69 | The per-`div` callback updates the record exactly as one step of the fold: its percentage test, then its tier test |
| Extractor.VisitWritesOneField | scrapscript.js:44-69 | Visiting one container overwrites each field with what that container writes to it, if anything, and writes at most one of the four fields: the percentage and tier patterns never both match |
| Extractor.PercentDispatch | scrapscript.js:48-58 | A percentage goes to the win rate when its label contains "win rate", whatever else the label contains. Otherwise it goes to the pick rate when the label contains "pick rate", and otherwise to the ban rate when it contains "ban rate". A percentage whose label names none of them changes nothing |
| Extractor.TierDispatch | scrapscript.js:62-68 | A non-percentage text sets the tier exactly when it is a tier token and its label contains "tier", and then to the token upper-cased; otherwise nothing changes |
| Extractor.ScanIsLastWrite | scrapscript.js:44-69 | Each field of a scanned page equals the last write to that field among its containers in document order, or null when none writes |
| Extractor.ScanLastMatch | scrapscript.js:44-69 | Last write wins, by position: a field is null exactly when no container matches it. Otherwise its value is the one written by some container that no later container overwrites |
| Extractor.LastWriteIsLast | scrapscript.js:53-66 | The last write of a sequence of writes is `None` exactly when nothing is written, and otherwise is the value at a position after which nothing is written |
| Extractor.ExtractInDomain | scrapscript.js:37-79 | Whatever the fetch yields, every field found is a grade, or a percentage of at most 99.99 |
| Extractor.ExtractNullIffNoMatch | scrapscript.js:37-79 | Fields start null and are never defaulted: a field is null exactly when the fetch failed or no container of the page matches that field |
| Extractor.ScanInDomain | scrapscript.js:44-69 | Every field found on any page is a grade or a percentage of at most 99.99 |
| ExtractorExamples.WinRateExample | scrapscript.js:45-53 | "73%" labelled "Win Rate" gives a win rate of 73, all other fields null |
| ExtractorExamples.BanRateExample | scrapscript.js:45-57 | "<5%" labelled "Ban Rate" gives a ban rate of 5: the `<` is dropped, not read as "less than" |
| ExtractorExamples.TierExample | scrapscript.js:62-66 | "s-" labelled "Tier" gives the tier "S-" |
| ExtractorExamples.UnlabelledExample | scrapscript.js:48-58 | "73%" labelled "Matches" leaves every field null |
| Tokens.PercentTokenIff | scrapscript.js:46 | A trimmed text passes the percentage test exactly when it is an optional `<`, white space, one or two digits, optionally a dot and one or two digits, and `%` |
| Tokens.RenderIsPercentToken | scrapscript.js:46-50 | Every text of that shape passes the test, and the value read from it is its whole part plus its fraction, in hundredths |
| Tokens.ParseParts | scrapscript.js:46 | Every text that passes the test is spelled by well-formed parts: `<`, white space, whole part, fraction, `%` |
| Tokens.StripPercentToken | scrapscript.js:50 | Deleting `<`, `>`, white space and `%` from an accepted token leaves exactly its numeral |
| Tokens.PercentValue | scrapscript.js:50 | The value of an accepted percentage is at most 9999 hundredths, i.e. within [0, 99.99] |
| Tokens.PercentExample73 | scrapscript.js:46-50 | "73%" is accepted and reads as 73 |
| Tokens.PercentExampleLess | scrapscript.js:46-50 | "<5%" is accepted and reads as 5 |
| Tokens.PercentExampleFraction | scrapscript.js:46-50 | "< 52.05%" is accepted and reads as 52.05 |
| Tokens.PercentRefusesHundred | scrapscript.js:46 | "100%" is refused: at most two integer digits |
| Tokens.PercentRefusesBareDot | scrapscript.js:46 | "5.%" is refused: a dot needs a digit after it |
| Tokens.TierTokenGrade | scrapscript.js:62-66 | Upper-casing a tier token gives a grade of length 1 or 2 over `SABCDEF?` with an optional `+`/`-`, and keeps the suffix |
| Tokens.GradeIsTierToken | scrapscript.js:62-66 | The stored grades are exactly the tier tokens that upper-casing leaves unchanged |
| Tokens.PercentIsNotTier | scrapscript.js:46-62 | No text is both a percentage and a tier token |
| Text.Trim | scrapscript.js:45 | `trim()` gives a string neither starting nor ending with white space, no longer than its input |
| Text.TrimStartDropsSpace | scrapscript.js:45 | What trimming the start drops is all white space |
| Text.TrimUnchanged | scrapscript.js:45 | A string without white space at either end is its own trim |
| Text.Lower | scrapscript.js:49 | `toLowerCase()` keeps the length and maps each character on its own |
| Text.Upper | scrapscript.js:66 | `toUpperCase()` keeps the length and maps each character on its own |
| Text.LowerIsNormal | scrapscript.js:26 | A lower-cased string has no upper-case letter left, and lower-casing it again changes nothing |
| Text.ContainsInfix | scrapscript.js:52 | `includes` finds a substring wherever it sits |
| Text.ContainsNeedsRoom | scrapscript.js:52 | A string shorter than the substring does not include it |
| Extractor.StatsUrl | scrapscript.js:32 | The statistics page's address: `https://u.gg/lol/champions/`, the slug, `/build/`, the role's long code |
| Extractor.Label | scrapscript.js:49 | A container's label is its next sibling's text, trimmed and then lower-cased (the same text serves as `nextText` at line 64) |
| Extractor.PercentVisit | scrapscript.js:45-59 | The percentage branch of the callback: an accepted percentage is written to the win, pick or ban rate by the label's priority, anything else leaves the record unchanged |
| Extractor.TierVisit | scrapscript.js:62-68 | The tier branch of the callback: a tier token labelled "tier" is written upper-cased to the tier, anything else leaves the record unchanged |
| Extractor.Visit | scrapscript.js:44-69 | One step of the traversal: the percentage branch, then the tier branch, on the trimmed text and the label |
| Extractor.Scan | scrapscript.js:37-69 | The record after visiting the page's containers in document order, starting from all four fields null |
| Extractor.Extract | scrapscript.js:33-80 | What `getStats` returns for one fetch: the scan of the fetched page, or all-null when fetching or parsing failed |
| Tokens.IsPercentToken | scrapscript.js:46 | The percentage test: the last character is `%`, and what precedes it, after one optional `<` and then white space, is one or two digits optionally followed by a dot and one or two digits |
| Tokens.Strip | scrapscript.js:50 | The `replace(/[<>\s%]/g, '')` of the value extraction: every `<`, `>`, `%` and white-space character is deleted, the rest kept in order |
| Tokens.IsGradeLetter | scrapscript.js:62 | The class `[SABCDEF\?]` under the `i` flag: those letters in either ASCII case, and `?` |
| Tokens.IsTierToken | scrapscript.js:62 | The tier test: a grade letter, then optionally `+` or `-`, and nothing else |
| Aggregator.Roles | scrapscript.js:6-12 | The roles table in declaration order, as (short code, long code) pairs: top/top, jgl/jungle, mid/mid, bot/adc, sup/support |
| Aggregator.Absorb | scrapscript.js:113-119 | One pass of the inner loop: the role's entry of the three maps is written, and its ban rate is taken only while the ban rate is still null |
| Aggregator.Fold | scrapscript.js:104-120 | The inner loop from empty maps and a null ban rate, absorbing each role in table order |
| Aggregator.RecordOf | scrapscript.js:122-129 | The record pushed for a champion: its id as name, its image URL, and the three maps and ban rate after all five roles |
| Aggregator.Snapshot | scrapscript.js:101-130 | The `result` array: the records of the champion list, in its order |
| Aggregator.ImageUrl | scrapscript.js:124 | The image address: `https://ddragon.leagueoflegends.com/cdn/`, the patch, `/img/champion/`, the id, `.png` |
| Text.TrimStart | scrapscript.js:45 | Drops the longest white-space prefix: the result is a suffix of the input that does not start with white space |
| Text.TrimEnd | scrapscript.js:45 | Drops the longest white-space suffix: the result is a prefix of the input that does not end with white space |
| Text.TrimEndDropsSpace | scrapscript.js:45 | What trimming the end drops is all white space |
| Text.TrimIsSlice | scrapscript.js:45 | `trim()` is the slice of its input between the leading and the trailing white space: all that comes before and after the slice is white space |
| Text.Contains | scrapscript.js:52-56 | `includes`: `sub` appears at the start of `s` or of one of its suffixes |
| Text.ContainsSound | scrapscript.js:52-56 | `includes` holds only when `sub` occurs in `s` between two strings |
| Text.ContainsIff | scrapscript.js:52-65 | `includes` holds exactly when `s` is some string, then `sub`, then some string |
| Catalog.AllChampions | scrapscript.js:24-27 | One champion per catalog entry, in the catalog's order; each keeps the entry's id and has the lower-cased id as its slug |
| Catalog.SlugsAreNormal | scrapscript.js:24-27 | Every slug has no upper-case letter, and both its id and the slug itself normalise to it |
| Aggregator.Aggregate | scrapscript.js:101-130 | The nested loops produce exactly the specified snapshot of the champion list, for every upstream |
| Aggregator.SnapshotLength | scrapscript.js:101-130 | The snapshot has one record per champion |
| Aggregator.SnapshotAt | scrapscript.js:103-129 | The i-th record is the record of the i-th champion: input order is kept |
| Aggregator.SnapshotNames | scrapscript.js:122-124 | The i-th record is named by the i-th champion's id, and its image is that id's square image for the patch |
| Aggregator.FoldKeys | scrapscript.js:109-115 | After the inner loop, the three maps are keyed by exactly the codes visited |
| Aggregator.FoldValues | scrapscript.js:113-115 | With distinct codes, each code's entry holds the statistics of its own role: no role overwrites another's |
| Aggregator.FoldBanRate | scrapscript.js:117-119 | The ban rate is that of the first role whose ban rate is not null, and null when none has one |
| Aggregator.FoldInDomain | scrapscript.js:113-119 | Statistics in their domain fill maps and a ban rate in their domain |
| Aggregator.CodesAreRoleCodes | scrapscript.js:6-12 | The short codes of the roles table are distinct and are exactly top, jgl, mid, bot, sup |
| Aggregator.RecordKeys | scrapscript.js:104-115 | Each record's tier, winrate and pickrate maps have exactly the keys {top, jgl, mid, bot, sup} |
| Aggregator.RecordValues | scrapscript.js:109-115 | Under each role's short code, the maps hold the tier, win rate and pick rate that the role's long code's page yields |
| Aggregator.RecordBanRate | scrapscript.js:107-119 | A record's ban rate is the first non-null ban rate in roles order (top, jungle, mid, adc, support), or null when no role has one |
| Aggregator.FailedRoleIsNull | scrapscript.js:111-115 | A role whose page fails to load is null in all three maps of the champion's record |
| Aggregator.RecordInDomain | scrapscript.js:122-129 | Every value in a record is null, a grade, or a percentage of at most 99.99 |
| Aggregator.ImageUrlInjective | scrapscript.js:124 | Within one patch, different ids give different image URLs |

## Left out

- Fetching the version feed and choosing its first entry as the latest patch (`getLatestPatch`) is I/O. The patch is a parameter of `Aggregator.Aggregate`, so a fatal abort on an empty feed is not modelled.
- Fetching the catalog is I/O. `Catalog.AllChampions` takes the catalog's values already listed in `Object.values` order, so neither JavaScript's property-order rule nor JSON parsing is modelled, and neither is the fatal abort when the catalog is missing.
- HTTP requests to the statistics site are I/O; they become the `Upstream` function parameter. Timeouts, and which exceptions are thrown, are not modelled: every failure is `Failed`.
- HTML parsing and DOM traversal are foreign library calls. This covers `div` selection, `.text()` over descendants and `.next()`. A page is given as its sequence of (text, next sibling text) pairs.
- `parseFloat` produces a floating-point number; the model produces exact hundredths instead. The JSON output's spelling of numbers (`73` against `73.0`) is not modelled.
- Text.Lower and Text.Upper map only the ASCII letters. JavaScript's `toLowerCase`/`toUpperCase` use full Unicode case mapping. A label containing the Kelvin sign, as in "PICK RATE", lowercases to "pick rate" in JavaScript but not in the model. Some characters also change length when their case is mapped. For tier tokens this makes no difference: the tier test accepts only ASCII.
- Writing `public/champions.json` and its pretty-printing are I/O. So is console logging, including the error message on a failed page.
- The progress bar is observational UI and has no effect on the data.
- `async`/`await` is not modelled: each request is awaited before the next, so the code is sequential.
- `src/App.jsx` (React routing) and `vite.config.js` (build configuration) are not part of this model; they hold no scraping logic.
