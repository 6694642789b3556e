# EST: a Dafny model of the testing tool's decision logic

EST (`est.py`) is an email-spoofing assessment tool. It runs an SMTP test
server that accepts spoofed mail and relays it, and it sends scenario emails.
Every attempt goes into a JSON-lines test log, and the tool builds an
assessment report from that log. Most of `est.py` is sockets, `smtplib`, DNS,
MIME construction and printing. This project models the logic underneath
that layer and proves what it promises:

- **Report aggregation** (module `Report`). `_create_report` folds the test
  log into overall, per-test-type and per-scenario counters.
  `_generate_recommendations` picks four recommendations by success-rate band
  and adds four fixed ones. `_print_report_summary` prints a risk level.
  - The per-key counters are dicts. The model keeps them as sequences of
    `Bucket`s in the dict's key order, which is the order of first
    appearance.
  - `TallyBy` is the counting loop. It is proved equal to the specification
    `Buckets`.
  - Lemmas prove that the buckets conserve the totals and that the
    recommendations are eight, chosen by band.
- **SMTP session** (module `Smtp`).
  - `_handle_client` becomes the method `SmtpTestServer.HandleClient`. It is
    a `while` loop over the chunks that successive `recv` calls return, and
    it updates the server's `emailsProcessed` field.
  - The method is proved equal to the specification function `Serve`, which
    repeats `Step`, a single turn of the dispatch.
  - The sender, the recipient list, the replies sent and the results logged
    are the session `State`.
  - `_process_email` and `_relay_email` are loops over the recipients and
    over the mail exchangers. A `Network` oracle says which exchangers a
    domain has and which of them accept.
  - `_extract_email` is specified by the leftmost, shortest match of
    `<(.+?)>`, with the bare-token fallback.
- **Command helpers** (module `Commands`): the tail that `show_logs`
  selects, the scenario that `run_scenario` picks for an id (with Python's
  negative indexing), and the category grouping of `list_scenarios`.
- **Configuration** (module `Config`). `_load_config` merges the default
  keys into the loaded JSON. It returns the defaults when the file cannot
  be read, and writes them when no file exists.

Shared modules:

- `Text` states the Python string operations used on `seq<char>`:
  `strip`, ASCII `upper`, `split`, `startswith`, `join` and string order.
- `Tally` gives the insertion-ordered keys of a dict filled in one pass, the
  per-key counts, and the proof that the counts add up.
- `Records` holds the two dataclasses.
- `Wrappers` holds `Option`.

Behaviours of the code that the model keeps, and proves:

- **The summary and the recommendations can disagree on the band.**
  - `_print_report_summary` bands on the rate after `round(..., 2)`, while
    `_generate_recommendations` bands on the exact rate.
  - The printed risk level is therefore never higher than the
    recommendations' band (`Report.SummaryNeverAboveRecommendations`).
  - On the modelled rate (see Report.RoundedRate under "## Left out"), the
    two differ exactly when the rate lies strictly between 80% and 80.005%,
    or between 50% and 50.005% (`Report.BandsDisagreeExactly`).
  - Example: 20001 successes in 25000 tests print "HIGH" above the
    CRITICAL recommendations (`Report.BandsDisagreeExample`).
- **`show_logs` with `lines == 0` shows every entry.** `log[-0:]` is the
  whole log, although the heading says "Last 0 entries"
  (`Commands.RecentLogs`, `Commands.RecentLogsIsTail`).
- **`run_scenario` accepts ids the hint does not promise.** It rejects an
  id only where `scenarios[id - 1]` raises, that is when `id > n` or
  `id < 1 - n`. Id 0 therefore runs the last scenario, although the hint
  says "1-n" (`Commands.ScenarioAt`, `Commands.ScenarioZeroIsLast`).
- **A connection closed inside a message body ends in `Stalled`.**
  After `DATA`, the server waits for a chunk that ends with `\r\n.\r\n`. If
  the peer closes first, `recv` returns `""` forever and the inner loop of
  `_handle_client` never ends. The model ends such a session with the
  ending `Stalled`, after the 354 reply. It logs nothing and does not
  increment the counter.
- **A chunk that is empty or all whitespace ends the session**, like a
  closed connection, because `strip()` leaves `""`.
- **`_load_config` can return a non-object value as it is.** The merge
  loop tests `key in loaded_config` on whatever JSON value the file holds.
  - A list or a string that `in` reports as holding every default key is
    returned unchanged.
  - For any other non-object value the item assignment (or the `in` test
    itself) raises, and the defaults are returned.
  - `Config.LoadConfig` models this with the `Verbatim` result.

## Model

| member | source | states |
|---|---|---|
| Text.StripWhere | est.py:378 | `strip(chars)`: the result is the slice of the input that starts and ends with a kept character, and everything cut off on either side is a dropped character |
| Text.Split | est.py:377 | `split()` yields whitespace-free, non-empty parts |
| Text.UpperIdempotent | est.py:307 | upper-casing an already upper-cased command changes nothing |
| Tally.Keys | est.py:776-780 | the keys of a dict filled in one pass: each key once, every element's key present, and only keys of elements |
| Tally.KeysFirstAppearance | est.py:776-780 | of two keys in `Keys`, the earlier one first occurs earlier in the sequence, and every key occurs: insertion order of first appearance |
| Tally.IndexOf | est.py:779 | the `not in` test: the position of the first occurrence, or the length when the key is absent |
| Tally.CountWherePositive | est.py:396 | a count is positive exactly when some element satisfies the predicate |
| Tally.SumOfCounts | est.py:776-793 | over the distinct keys, the per-key counts add up to the overall count |
| Report.BucketsConserve | est.py:771-793 | a grouping has distinct keys covering every entry; each counter's `success` is at most its `total`; the totals add up to `total_tests` and the successes to `successful_tests` |
| Report.KeysOfBuckets | est.py:776-793 | the keys of a grouping's counters equal `Tally.Keys` of the entries, so they are in order of first appearance by Tally.KeysFirstAppearance |
| Report.BucketsSnocNew | est.py:779-783 | one more entry with a new key appends a counter {1 total, 1 success iff it succeeded} and leaves the others unchanged |
| Report.BucketsSnocKnown | est.py:781-783 | one more entry with a known key increments that key's counter in place (`success` only if it succeeded) and leaves the others unchanged |
| Report.TallyBy | est.py:776-793 | the counting loop over the log yields exactly the specified per-key counters |
| Report.Earliest | est.py:797 | `min(timestamps)`: a timestamp of the list that no other precedes in string order |
| Report.Latest | est.py:798 | `max(timestamps)`: a timestamp of the list that follows every other in string order |
| Report.PeriodEndsUnique | est.py:797-798 | `min` and `max` are determined: any timestamp of the list preceding (following) every other equals `Earliest` (`Latest`) |
| Report.TestPeriod | est.py:796-798 | first and last test are `None` exactly when the log is empty |
| Report.TestPeriodBounds | est.py:796-798 | for a non-empty log, both ends are timestamps of the log, and every timestamp lies between them |
| Report.RecommendationsShape | est.py:825-862 | always 8 recommendations: the Critical four iff rate > 80, the High four iff 50 < rate <= 80, the Medium four iff rate <= 50 or the log is empty; then the same four fixed items |
| Report.RoundedRateBounds | est.py:811 | the stored rate in hundredths is within half a hundredth of `10000 * s / t` |
| Report.RoundedRateAtLeast | est.py:811 | the stored rate reaches `k` hundredths exactly when `10000 * s / t + 1/2 >= k` |
| Report.SummaryNeverAboveRecommendations | est.py:875-880 | the printed risk level, banded on the rounded rate, is never above the band of the recommendations |
| Report.BandsDisagreeExactly | est.py:831-853 | the two bandings differ exactly when the rate is in (80%, 80.005%) or (50%, 50.005%) |
| Report.BandsDisagreeExample | est.py:875-880 | 20001 of 25000: the summary prints 80.0 and HIGH while the recommendations are CRITICAL |
| Report.CreateReport | est.py:769-823 | total, successful and failed counts (failed = total - successful, successful <= total); the rounded rate (0 for an empty log); both groupings as specified; the test period; the log itself; the recommendations; the version and the report type |
| Smtp.CloseFrom | est.py:374 | the lazy `.+?` scan stops at the first `>`; it finds a match iff one exists from that `<` |
| Smtp.MatchAt | est.py:374 | a match starting at position `i` is found iff one exists, and it is the shortest |
| Smtp.Search | est.py:374 | `re.search`: the reported match is a lazy match with no match starting earlier; no report means no match anywhere |
| Smtp.SearchFindsLeftmost | est.py:374 | the leftmost lazy match is the one the search reports |
| Smtp.ExtractEmail | est.py:372-378 | the text inside the leftmost, shortest `<...>`; without any match, the last of at least two whitespace parts stripped of `<>`, else `""` |
| Smtp.ExtractBracketed | est.py:374-376 | a non-empty address without `>` or newline between `<` and `>`, after text without `<`, comes back unchanged |
| Smtp.ExtractBare | est.py:372-378 | after a head without `<` that holds a word and ends in whitespace, a last word without whitespace or angle brackets comes back |
| Smtp.BareLastWord | est.py:377-378 | after a head that holds a word and ends in whitespace, the fallback returns a last word without whitespace or angle brackets |
| Smtp.ExtractFromMailFrom | est.py:313-314 | from `MAIL FROM:`, any run of spaces and `<a>` (a non-empty, without `>` or newline) the address extracted is `a` |
| Smtp.ExtractFromBareRcptTo | est.py:318-320 | from `RCPT TO: a` with a bare word the address extracted is `a` |
| Smtp.Domain | est.py:412 | `split('@')[1]`: present iff the address holds `@`; then it is the text that starts right after the first `@` and runs up to the next `@` or the end, and it holds no `@` |
| Smtp.ClassifyByOwnTest | est.py:307-358 | each command kind holds exactly when its own test holds on the upper-cased line (prefix for `EHLO`/`HELO`, `MAIL FROM:`, `RCPT TO:`, `RSET`; equality for `DATA`, `QUIT`), so the order of the tests is immaterial |
| Smtp.ClassifyIgnoresCase | est.py:307 | a command is recognised whatever its case |
| Smtp.DataEnd | est.py:329-333 | the chunk that ends a message body is the first from the given one that ends with `\r\n.\r\n` |
| Smtp.Step | est.py:298-358 | a turn that continues moves forward through the chunks |
| Smtp.StepEffects | est.py:300-358 | a blank line disconnects; every other non-`DATA` turn but `QUIT` moves on to the next chunk, keeps the counter and the log, and adds one reply: `EHLO`/`HELO` 250 and unknown commands 500, changing nothing else; `MAIL FROM:` 250 and sets the sender; `RCPT TO:` 250 and appends one recipient, keeping the sender; `RSET` 250 and clears both; `QUIT` replies 221 and ends; an unterminated body ends after 354 |
| Smtp.StepDelivers | est.py:324-346 | after a completed `DATA`, the session continues after the body; the counter rises by one; sender and recipients are cleared; one `smtp_relay` result is logged for the sender and all recipients; it succeeds (and the reply is 250, otherwise 550) iff some recipient was relayed to |
| Smtp.AccountsCompletion | est.py:336-342 | a completed `DATA` adds one processed email, one log entry and one 250/550 reply; the entry succeeds iff the reply is 250 |
| Smtp.StepAccounts | est.py:298-358 | every turn keeps the books balanced |
| Smtp.ServeAccounting | est.py:298-358 | over a whole session, the counter and the log grow by the number of 250/550 completion replies, and successful log entries match the 250 queued replies |
| Smtp.StepEndings | est.py:324-350 | a `QUIT` turn ends with 221 as the last reply; a body cut short ends with 354 as the last reply |
| Smtp.ServeEndings | est.py:298-358 | a session that ends by `QUIT` has 221 as its last reply; one that stalls in a body has 354 |
| Smtp.SmtpTestServer.constructor | est.py:206-212 | a new server has the given host and port and has processed no email |
| Smtp.SmtpTestServer.RelayEmail | est.py:409-440 | delivers iff some exchanger of the recipient's domain accepts; tries them in order, stopping at the first that accepts; all refused ones come before it; none for an address without `@` |
| Smtp.SmtpTestServer.ProcessEmail | est.py:380-407 | the delivery count is the number of relayed recipients, at most `len(rcpt_to)`; success iff some recipient was relayed; an empty list always fails; the logged record |
| Smtp.SmtpTestServer.ReceiveMessage | est.py:325-337 | reads up to the first chunk ending in `\r\n.\r\n` and processes the message; no result when the chunks run out first |
| Smtp.SmtpTestServer.Respond | est.py:300-358 | one dispatch turn of the loop is exactly the specified step |
| Smtp.SmtpTestServer.HandleClient | est.py:284-370 | the replies, the log and the ending are those of the specified session; the first reply is the 220 greeting; the counter rises by exactly the number of completed `DATA` commands, which is the number of results logged |
| Commands.SliceFrom | est.py:700 | Python `s[start:]`: a suffix, with negative starts counted from the end and both clamped |
| Commands.RecentLogs | est.py:700 | a suffix of the log: the last `lines` entries when `0 < lines < len`, the whole log when `lines >= len` or `lines == 0`, and `len + lines` entries for a negative count |
| Commands.RecentLogsIsTail | est.py:693-700 | for a non-negative count the selection is the last `min(lines, len)` entries, except that a count of 0 shows every entry |
| Commands.ScenarioAt | est.py:549-553 | rejected iff `id > n` or `id < 1 - n`; ids 1..n pick `scenarios[id - 1]`, and ids down to `1 - n` count from the end |
| Commands.ScenarioZeroIsLast | est.py:549-552 | id 0 is accepted and picks the last scenario |
| Commands.ScenarioIds | est.py:549 | the scenario at position `k` is picked by id `k + 1` and by id `k + 1 - n`, and every accepted id picks a listed scenario |
| Commands.Members | est.py:519-523 | a category's numbered entries are `(i, scenarios[i-1])` pairs of that category, in increasing order |
| Commands.MembersExactly | est.py:520-523 | a scenario is listed under a category exactly when it belongs to it |
| Commands.GroupedPartitions | est.py:519-523 | categories are listed once each; every scenario appears under its own category and no other; every pair is a scenario with its 1-based position |
| Commands.MembersSnoc | est.py:520-523 | one more scenario appends its numbered pair to its own category only |
| Commands.GroupedSnocNew | est.py:521-523 | a scenario of a new category opens a group at the end |
| Commands.GroupedSnocKnown | est.py:521-523 | a scenario of a known category is appended to its group in place |
| Commands.CategoriesOfGrouped | est.py:519-523 | the grouping's categories equal `Tally.Keys` of the scenarios, so they are in order of first appearance by Tally.KeysFirstAppearance |
| Commands.GroupByCategory | est.py:519-523 | the loop filling `categories` yields exactly the specified grouping |
| Config.DefaultConfig | est.py:93-165 | the default configuration has the keys `version`, `smtp_server`, `scenarios`, `temp_email_services`, `reporting`, in this order |
| Config.Lookup | est.py:173-174 | `d[k]` is absent iff the key is absent, and is a stored value under that key otherwise |
| Config.MergeDefaults | est.py:172-174 | the merge loop yields the specified merge |
| Config.MergeKeepsLoaded | est.py:172-175 | the loaded entries stay first and unchanged |
| Config.MergeKeys | est.py:172-174 | afterwards the dict holds exactly the loaded keys and the default keys |
| Config.MergeLookup | est.py:172-174 | a loaded key keeps its loaded value; a missing default key gets its default value |
| Config.MergeDistinct | est.py:172-174 | the merge introduces no duplicate key |
| Config.MergeIdempotent | est.py:172-174 | merging a second time changes nothing |
| Config.MergeAgain | est.py:172-174 | merging defaults into any dict that already holds each of their keys (such as the file an earlier run wrote with the defaults, est.py:180, or an edited file that holds all five keys) adds nothing |
| Config.HasKeyAppend | est.py:174 | inserting a key adds exactly that key |
| Config.LookupAppend | est.py:174 | inserting a new key leaves existing lookups unchanged |
| Config.LoadConfigComplete | est.py:167-181 | only a missing file writes the defaults; the non-object value is returned as-is exactly when `in` holds for every default key; any dict result holds every default key; object files keep their own values; every other case yields the defaults |

## Left out

- Sockets, the `accept` loop, threads, signal handling and `self.running` (est.py:214-282, 298): network I/O and concurrency. A session is modelled as its sequence of `recv` chunks, and the server is always running.
- `recv` decoding (`decode('utf-8', errors='ignore')`): chunks are taken to be strings already.
- DNS MX lookup, the fallback host probing and `smtplib` delivery (est.py:413, 419-426, 442-466): these are the `Network` oracle.
- The text of the replies: only their kinds and codes are modelled. Logging calls and the message body passed to the relay are left out, so is `email_data[:-5]`.
- `TestResult.details` (est.py:70, 397-402): a free-form dict.
- MIME construction, message ids and headers (est.py:888-968): library code and non-deterministic values.
- File and JSON I/O:
  - `json.load`/`json.dump` and the log file appends (est.py:167-201, 468-485, 970-989).
  - The file's state is a `Stored` value and the write is a returned flag.
  - The default configuration's nested values are left abstract.
- Config.Lookup: a JSON object is taken to have distinct keys. For a duplicate key `json.load` keeps the last value, while `Lookup` returns the first.
- `datetime.now()`: a `now` parameter. One reading serves a whole session, so every result logged in one `HandleClient` call carries the same timestamp, where est.py:391 reads the clock again for each processed message.
- Printing, banners, severity icons and `argparse` (est.py:494-513, 525-544, 991-1117): UI. From `_print_report_summary` only the risk banding is modelled.
- `run_scenario` after the scenario lookup, and `run_custom_test` (est.py:555-685): these send email through the I/O layer.
- Report.RoundedRate: `round(s / t * 100, 2)` is modelled on the exact rational with halves rounded up. Python rounds the binary float half-to-even, so results at an exact tie or within float error of one may differ by a hundredth.
- Text.Upper: `str.upper` is modelled on ASCII letters only. Non-ASCII case mappings (including ones that change length) are left out.
- Text.LexLe: Python's string order is modelled as code-point order; this is what `min`/`max` of the ISO timestamps use.
- Smtp.SmtpTestServer.HandleClient: the inner body loop that never ends on a closed connection is modelled as the ending `Stalled`.
- Smtp.SmtpTestServer.HandleClient: the `except` branches that break the loop on a timeout or error are not modelled, since no operation in the model fails.
- Report.CreateReport: its contract states the groupings as `Buckets`. The conservation facts about them (successes within totals, totals summing to the counts) are stated by `Report.BucketsConserve`.
