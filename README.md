# Fuel-price checker, modelled in Dafny

The checker (`checker.js`) runs once per invocation. It starts a scraper
subprocess and parses the station list from its output. It then loads the
previous snapshot from `last-result.json`, mails an HTML report and saves the
new snapshot. This project models the three pieces of logic inside that
script and proves what they do:

- **The report builder** (`sendNotification`), in `notification.dfy`. It
  decides whether the run counts as "changed": an old snapshot is given and
  it differs from the new one. It then builds the HTML body and picks the
  subject. In changed mode the body is a positional diff: record `i` of the
  new snapshot is paired with record `i` of the old one, never by name. In
  unchanged mode the body lists every station, and this branch is an
  imperative loop that grows the message with `+=`.
- **The JSON-candidate extractor and the fetch** (`getLatestPrices`), in
  `extraction.dfy`. Strict parsing of stdout is tried first. If it fails, the
  regular expression `/(\$$[\s\S]*\$|{[\s\S]*})/` cuts a candidate out of
  stdout. Its first alternative can never match. The match is therefore the
  text from the first `{` to the last `}`, and it exists only when a `}`
  follows the first `{`. The model defines the regular expression's
  first-match semantics declaratively: leftmost start, first alternative
  preferred, greedy repetition. It proves that the index-based function
  `Candidate` computes exactly that match.
- **The run** (`runCheck`), in `runner.dfy`. It is a pure function that
  returns the ordered list of effects: `Save(value)`, which writes the fetched
  value (a list of stations or any other JSON value), and
  `Notify(old, new, forceSend)`.

`snapshots.dfy` holds the data model. A station is a record with `naam` and
`prijs`. A field value is `Undefined`, `Null`, a string, or a number held by
its ECMAScript ToString text. JavaScript truthiness is the explicit predicate
`Truthy`. A snapshot is a sequence of stations. `JSON.stringify` equality of
two snapshots is modelled as structural equality.

Some consequences of the code as written are proved:

- The first run passes `[]` as the old snapshot, and `[]` is truthy. So a
  non-empty first fetch produces the "Brandstofprijs gewijzigd" mail, and its
  list of changes is empty (`FirstRunMailListsNothing`).
- A reordering of stations is reported as price changes even though no price
  moved (`ReorderingMisattributes`).
- `forceSend` is passed but never read.
- The first run saves the new snapshot before it mails (checker.js:132-133,
  `RunOrder`).
- The first alternative of the fallback's regular expression, `\$$[\s\S]*\$`,
  can never match. So the fallback only ever cuts out a JSON object, never an
  array (`DollarAlternativeNeverMatches`, `FallbackNeverYieldsStations`).
- A fetched value that is not an array makes `sendNotification` throw a
  `TypeError` on `newResults.map` (checker.js:67) or `newResults.forEach`
  (checker.js:83). The `catch` in `runCheck` swallows it. On a first run the
  value has already been saved; on a later run nothing is saved. Together
  with the point above, a run whose strict parse fails never sends a mail
  (`FallbackRunSendsNothing`).

`getLastPrices` (checker.js:43-49) becomes the datatype `Runner.StoredPrices`:
no previous value (no file, or a falsy JSON value in it), an unreadable file (JSON.parse
throws), or a stored list of stations.

## Model

| member | source | states |
|---|---|---|
| `Notification.SendNotification` | checker.js:57-109 | The HTML body equals `Body(old, new)`. The unchanged-mode loop appends exactly one station line per record, in order. The subject is the "gewijzigd" subject iff an old snapshot is given and differs from the new one. `forceSend` has no influence. |
| `Notification.Body` | checker.js:58-91 | Definition: the header, then either the changed-mode opening, the joined change lines and `</ul>`, or the unchanged-mode opening, one station line per record and `</ul>`; then the footer. |
| `Notification.Changed` | checker.js:61-62 | Definition: an old snapshot is given (every array is truthy) and it differs from the new one. |
| `Notification.OldPrice` | checker.js:68 | Definition: the price of the old record at the same index, `Undefined` past the end of the old snapshot. |
| `Notification.ChangeLine` | checker.js:67-75 | Definition: the change item when the old price is truthy and strictly differs from the new price, `""` otherwise. |
| `Notification.StationLine` | checker.js:84 | Definition: the station's `naam` in bold, then its `prijs`, as one list item. |
| `Notification.StationLines` | checker.js:83-85 | Definition: one station line per record of the new snapshot, in order, as the `forEach` visits them. |
| `Notification.Join` | checker.js:77 | Definition: `lines.join("")`, the lines concatenated in order with no separator. |
| `Notification.ChangeItem` | checker.js:72 | Definition: the list item with the new record's `naam` in bold, the old price struck through and the new price inserted. |
| `Notification.ChangeLines` | checker.js:67-75 | Definition: the `map` over the new snapshot, giving the change line of each index in order. |
| `Notification.Reported` | checker.js:68-71 | Definition: old has a record at the index, its price is truthy, and it strictly differs from the price of new's record at that index. |
| `Snapshots.Truthy` | checker.js:71 | Definition: undefined, null, the empty string and the number 0 are falsy; all else is truthy. |
| `Snapshots.Show` | checker.js:72 | Definition: what a template literal inserts for a value: `undefined`, `null`, the string itself, or the number's text. |
| `Notification.BodyFraming` | checker.js:58-91 | Every body starts with the fixed header and then the opening of the branch taken, and ends with the fixed footer. |
| `Notification.IdenticalIsUnchanged` | checker.js:61-64 | Identical snapshots, and an absent old snapshot, never take the changed branch. Identical old and new give the same body as no old snapshot. |
| `Notification.ChangeLineIff` | checker.js:67-75 | The line for index i is non-empty iff i is reported: old has a record at i, its price is truthy, and it differs strictly from new[i]'s price. Indices at or past the end of old yield "". |
| `Notification.ReportedUpTo` | checker.js:67-77 | The reported indices among the first n of new. There are at most n, each below n, and each is reported. |
| `Notification.ReportedUpToOrderedAndComplete` | checker.js:67-77 | The reported indices are strictly increasing, and every reported index below n is among them. |
| `Notification.ChangedListUpTo` | checker.js:67-77 | For every prefix of new, the joined lines equal the joined change items of the reported indices, in index order. |
| `Notification.ChangedListShowsReported` | checker.js:67-77 | The changed-mode list is exactly the change items of the reported indices, in index order. There are at most \|new\| of them. |
| `Notification.OldTailIgnored` | checker.js:67-68 | Pairing is positional: records of old beyond the length of new never affect the list. |
| `Notification.OldNamesIgnored` | checker.js:67-72 | Pairing is positional: old snapshots that agree on their prices position by position give the same list, whatever their names. |
| `Notification.ListingDistributes` | checker.js:83-85 | The unchanged-mode listing of a concatenation is the listing of the first part followed by that of the second. So it is one line per record, in order. |
| `Notification.FirstRunMailIsEmptyChangeList` | checker.js:61-77 | With old = [] and a non-empty new snapshot, the run counts as changed and the body holds the changed-mode opening with an empty list. |
| `Notification.FirstRunWithNoStations` | checker.js:61-88 | With old = [] and new = [], the run is unchanged and the body is the "no changes" mail with an empty list. |
| `Notification.OnePriceMoved` | checker.js:67-77 | Old A 1.80, B 1.75 against new A 1.85, B 1.75: only index 0 is reported, with 1.80 struck through and 1.85 inserted. |
| `Notification.ReorderingMisattributes` | checker.js:67-77 | Two stations swap places and no price moves: both indices are reported, each under the other station's old price. |
| `Extraction.DollarAlternativeNeverMatches` | checker.js:27 | The alternative `\$$[\s\S]*\$` matches nowhere in any string. |
| `Extraction.DollarAlternative` | checker.js:27 | Definition: the alternative `\$$[\s\S]*\$` matches `s[p..e]`: a `$` at p, the end-of-input anchor right after it, then a `$` at e-1. |
| `Extraction.BraceAlternative` | checker.js:27 | Definition: the alternative `{[\s\S]*}` matches `s[p..e]`: a `{` at p and a `}` at e-1, at least two characters. |
| `Extraction.MatchesAt` | checker.js:27 | Definition: one of the two alternatives matches `s[p..e]`. |
| `Extraction.IsFirstMatch` | checker.js:27-28 | Definition: `s[p..e]` is the match `String.prototype.match` reports: no match starts before p, the first alternative is preferred at p, and the greedy repetition makes the longest match of the chosen alternative win. |
| `Extraction.IndexOf` | checker.js:27 | The first position of a character, or the length when it is absent. |
| `Extraction.LastIndexOf` | checker.js:27 | The last position of a character, or -1 when it is absent. |
| `Extraction.Candidate` | checker.js:27-30 | A candidate is at least two characters long, starts with `{` and ends with `}`. There is none iff no `}` follows any `{`. |
| `Extraction.CandidateIsFirstMatch` | checker.js:27 | A candidate is the regular expression's first match: leftmost, first alternative preferred, greedy. It runs from the first `{` to the last `}`. |
| `Extraction.FirstMatchIsCandidate` | checker.js:27 | Conversely, any first match of the regular expression is the candidate. |
| `Extraction.NoCandidateNoMatch` | checker.js:27-30 | Without a candidate the regular expression matches nowhere. |
| `Extraction.CandidateSkipsDiagnostics` | checker.js:18-33 | For stdout `Loading...\n{"stations":[]}\nDone` the candidate is `{"stations":[]}`. |
| `Extraction.Fetch` | checker.js:11-40 | A scraper error rejects with its message. A strict parse that succeeds wins. Otherwise, when there is a candidate, its parse is the result, and the fetch is rejected as unparseable when that parse throws. The fetch is rejected for want of JSON iff the strict parse fails and the regular expression matches nowhere. |
| `Extraction.FetchParsesFirstMatch` | checker.js:26-37 | After a failed strict parse, the result is the parse of the regular expression's first match, or the unparseable rejection when that parse throws. |
| `Extraction.FallbackNeverYieldsStations` | checker.js:26-37 | Given that JSON.parse turns a text starting with `{` into an object, a fallback success is never a list of stations. |
| `Extraction.ParsesBracesAsObjects` | checker.js:33 | Definition: the assumption about `JSON.parse` that a text starting with `{`, if it parses at all, yields an object and never a list. |
| `Runner.RunCheck` | checker.js:122-152 | A run has at most two effects. Every save carries the freshly fetched value, and every notification carries it as its new snapshot. |
| `Runner.FailedFetchHasNoEffects` | checker.js:123-151 | A failed fetch saves nothing and mails nothing. |
| `Runner.UnreadableStoreHasNoEffects` | checker.js:43-47 | A stored file on which JSON.parse throws ends the run without effects. |
| `Runner.CompletedRunSavesAndNotifiesOnce` | checker.js:130-148 | When the fetched value is a list and the stored file is readable, the run saves the new snapshot exactly once and sends exactly one notification about it. |
| `Runner.RunOrder` | checker.js:130-148 | When the fetched value is a list and the stored file is readable: on the first run the save precedes a notification with old = []; on a later run a notification with the stored snapshot precedes the save. |
| `Runner.LaterRunMode` | checker.js:137-146 | After the first run the mail is in changed mode iff the stored snapshot differs from the new one. `forceSend` is set exactly on the unchanged mail. |
| `Runner.FirstRunMailListsNothing` | checker.js:130-134 | On the first run with a non-empty fetch, the notification has old = [], counts as changed, and carries an empty list of changes. |
| `Runner.NonListFetchSendsNothing` | checker.js:122-152 | A fetched value that is not a list is never mailed. A first run saves it and nothing else. A later run has no effect. |
| `Runner.FallbackRunSendsNothing` | checker.js:26-37 | A run whose strict parse fails sends no mail, whatever is stored. |

## Left out

- Running the scraper (`exec("node scrape.js")`) is external process I/O. Its outcome is the parameter `ScraperRun`: an error, or the captured stdout.
- `JSON.parse` is an opaque oracle `parse: string -> Option<Parsed>`; None stands for a thrown exception. A value that is not a list is kept only by its serialisation, and that JSON.parse turns a text starting with `{` into an object is the stated assumption `ParsesBracesAsObjects`.
- `JSON.stringify` is replaced by structural equality of the records. A record keeps only `naam` and `prijs`, so extra keys and key order are not modelled, though they can make the source's `changed` true. Boolean, object and array field values are not modelled either.
- The file `last-result.json` becomes the parameter `StoredPrices`: absent (or a falsy JSON value), unreadable, or a snapshot. A stored truthy value that is not a list (which only a first run with such a fetch can write) is not modelled. Writing the file is the abstract effect `Save`. Pretty-printing and the write itself are not modelled.
- The mail transport (nodemailer, the Gmail service, credentials and recipient from the environment, the sender line) is left out. `Notify` marks the call to `sendMail`. Delivery is asynchronous and its errors are only logged.
- Console logging and the rejection messages are left out, since they are only logged. So are the Promise plumbing and the top-level `catch`, beyond "no effects after a failure".
- A `TypeError` from a `null` record inside a fetched list is not modelled: records are always objects here. The `TypeError` from a fetched value that is not a list is modelled.
- Snapshots.Value: a number is held by its text, which is assumed to be the canonical ECMAScript ToString form. So `Num("1.80")` and `Num("1.8")` differ, whereas JavaScript compares the numbers 1.80 and 1.8 as equal.
- HTML escaping is not modelled: the code does none and only concatenates strings, and so does the model.
