# Gmail retrieval for the budget agent, in Dafny

This project is a Dafny model of the part of the budget agent that reads mail. The agent categorises bank transactions, and it searches the user's Gmail mailbox for receipts and confirmations to do so. The model covers four Python files.

- **transaction_categorizer/sub_agents/gmail_agent/gmail_tool.py** is the structured query tool.
  - `is_text_clearly_a_url` is modelled as `GmailText.IsTextClearlyAUrl`.
  - The label of a hyperlink is modelled as `GmailText.AnchorLabelAsWritten`.
  - `_decode_email_part_data` is `GmailText.DecodePartData`. Its regular-expression clean-ups are in `TextNormalize`.
  - `_find_best_text_in_parts` and `extract_email_body` are in `GmailBody`.
  - The header parsing, the search-query construction, `query_gmail_emails_structured` and `format_email_for_display` are in `GmailQuery`.
- **gmail_agent/tools.py** is the full-body search tool.
  - `_extract_body_from_payload` prefers plain text, and strips tags from HTML with a regular expression.
  - The tool itself, `search_gmail_for_transactions`, is in `AgentTools`.
- **transaction_categorizer/tools.py** is the subject-and-snippet search tool (`CategorizerTools`).
- **transaction_categorizer/gmail_tools.py** is `search_gmail_receipts` (`ReceiptSearch`). It builds a query from a transaction date, an amount and an optional merchant name, then lists and fetches the matching messages.

Both `search_gmail_for_transactions` tools share one loop, `MailSearch.CollectEntries`. The loop stops once `max_results` messages were fetched, skips failed fetches, and renders one entry per message. Each tool passes its own entry renderer to it as a function value. `MailSearch.RunSearch` adds the sentinel answers and the summary header.

Some modules are shared:
- `MimeTree`: the message resource as a tree of MIME parts.
- `Calendar`: Python's `datetime` dates, `timedelta` arithmetic, `strftime("%Y/%m/%d")` and `strptime(s, "%Y-%m-%d")`.
- `Common`: `str.strip()`, `join`, `lower()` and decimal rendering.

Some behaviour is passed in as parameters:
- The mail service appears as a `search`/`list` function from a query to the listed message ids, and a `fetch` function from an id to a message. `None` stands for an API error.
- Whether a service object could be built is a flag or an error text.
- Base64url and UTF-8 decoding, and the visible text the HTML parser leaves, are the function values of a `Codec`.

The stateful loops are methods, each proved equal to a specification function. The specification functions carry the properties the code promises. For example:
- HTML is preferred to plain text, and the first nested multipart with text wins.
- The capped fetch loop returns the first `max_results` successful fetches, in reference order.
- A receipt query's dates read back as the computed window.
- Quote escaping of the merchant name is undone by unescaping.
- Both whitespace normalisers leave no tab, no double space, no triple newline and no surrounding whitespace, and keep every visible character in order.

One quirk is recorded as written. The hyperlink label falls back to the image `alt` text whenever the label still equals `"Link"`. That is also true of an anchor whose own text is `"Link"`. `GmailText.AnchorLabelsAgree` proves this is the only difference from the documented rule (`GmailText.AnchorLabel`). `GmailText.AnchorLabelAsWrittenPrefersAlt` exhibits it on `<a href="https://shop.example"><img alt="Logo">Link</a>`.

## Model

| member | source | states |
|---|---|---|
| Common.Strip | transaction_categorizer/sub_agents/gmail_agent/gmail_tool.py:144 | `str.strip()`: the result is the input minus whitespace at both ends; it has no whitespace at either end and only whitespace was removed |
| Common.LowerAscii | transaction_categorizer/sub_agents/gmail_agent/gmail_tool.py:188 | `lower()`: same length, each ASCII capital mapped to its small letter, every other character kept |
| Common.NatToStringValue | gmail_agent/tools.py:200 | the decimal rendering of a count reads back as the count |
| Common.JoinSnoc | transaction_categorizer/gmail_tools.py:115 | `" ".join` of one more part appends the separator and that part |
| Calendar.OrdinalBounds | transaction_categorizer/gmail_tools.py:80 | every valid date has an ordinal from 1 to 3652059; only 0001-01-01 and 9999-12-31 reach the ends |
| Calendar.OrdinalInjective | transaction_categorizer/gmail_tools.py:80-82 | two valid dates with the same ordinal are equal |
| Calendar.Succ | transaction_categorizer/gmail_tools.py:82 | the next day is valid with the next ordinal; there is none exactly after 9999-12-31 |
| Calendar.Pred | transaction_categorizer/gmail_tools.py:81 | the previous day is valid with the previous ordinal; there is none exactly before 0001-01-01 |
| Calendar.SuccPred | transaction_categorizer/gmail_tools.py:81-82 | the day after the day before a date is that date |
| Calendar.AddDays | transaction_categorizer/gmail_tools.py:81-82 | `d ± timedelta(days=n)`: a result is a valid date whose ordinal is moved by exactly `n` |
| Calendar.AddDaysDefined | transaction_categorizer/gmail_tools.py:81-82 | adding days fails (Python's `OverflowError`) exactly when the ordinal leaves 1..3652059 |
| Calendar.Pad2 | transaction_categorizer/gmail_tools.py:85-86 | `%m`/`%d`: two digits whose value is the month or day |
| Calendar.FormatDateShape | transaction_categorizer/gmail_tools.py:85-86 | from year 1000 on a rendered date is `YYYY/MM/DD`, ten characters, digits reading back as year, month and day |
| Calendar.ParseDate | transaction_categorizer/gmail_tools.py:80 | `strptime(s, "%Y-%m-%d")`: every date it yields is a valid calendar date; `None` where Python raises `ValueError` |
| Calendar.ParseFormatted | transaction_categorizer/gmail_tools.py:80-86 | parsing a rendered date gives the date back (years 1000 to 9999, any non-digit separator) |
| GmailText.IsTextClearlyAUrl | transaction_categorizer/sub_agents/gmail_agent/gmail_tool.py:85-103 | only a non-empty text is URL-shaped; a scheme prefix or equality with the href suffices; otherwise it needs more than 20 characters, no space, and a dot or slash |
| GmailText.UrlRejectsEmpty | transaction_categorizer/sub_agents/gmail_agent/gmail_tool.py:87-88 | the empty text is never URL-shaped |
| GmailText.UrlAcceptsSchemes | transaction_categorizer/sub_agents/gmail_agent/gmail_tool.py:91-92 | every text starting `http://`, `https://`, `www.`, `ftp://` or `mailto:` is URL-shaped |
| GmailText.UrlAcceptsOwnHref | transaction_categorizer/sub_agents/gmail_agent/gmail_tool.py:95-96 | a non-empty text equal to its link target is URL-shaped |
| GmailText.UrlHeuristicOtherwise | transaction_categorizer/sub_agents/gmail_agent/gmail_tool.py:98-103 | without prefix or href match, URL-shaped iff longer than 20, no space, a URL punctuation mark, a dot or slash, and a letter |
| GmailText.ShortTextIsUrlOnlyAsHref | transaction_categorizer/sub_agents/gmail_agent/gmail_tool.py:85-103 | a text of at most 20 characters without a scheme is URL-shaped iff it is non-empty and equals the href |
| GmailText.AnchorLabel | transaction_categorizer/sub_agents/gmail_agent/gmail_tool.py:108 | documented label rule: non-URL anchor text, else non-URL stripped image alt, else "Link"; never empty, never URL-shaped unless "Link" |
| GmailText.AnchorLabelAsWritten | transaction_categorizer/sub_agents/gmail_agent/gmail_tool.py:124-136 | the label is never empty and never URL-shaped unless "Link"; non-URL anchor text other than "Link" is the label; an anchor whose text is "Link" takes a qualifying image alt |
| GmailText.AnchorLabelsAgree | transaction_categorizer/sub_agents/gmail_agent/gmail_tool.py:121-136 | the label as computed equals the documented rule for every anchor text other than "Link" |
| GmailText.AnchorLabelAsWrittenPrefersAlt | transaction_categorizer/sub_agents/gmail_agent/gmail_tool.py:124-136 | an anchor whose text is "Link" takes the image alt "Logo" as written, where the documented rule keeps "Link" |
| GmailText.AnchorReplacement | transaction_categorizer/sub_agents/gmail_agent/gmail_tool.py:137-138 | the replacement is `[`, the label, `]` and one space, nothing more |
| GmailText.DecodePartData | transaction_categorizer/sub_agents/gmail_agent/gmail_tool.py:105-152 | a decoding failure gives the fixed error text; HTML data gives exactly `NormalizeHtmlText` of the parser's text and other data exactly `NormalizePlainText` of the decoded text; either way the result is clean (no tab, no double space, no triple newline, trimmed) and keeps the visible characters |
| TextNormalize.CollapseBlanks | transaction_categorizer/sub_agents/gmail_agent/gmail_tool.py:141 | `re.sub(r'[ \t]+', ' ', …)`: no tab and no double space remain, a leading space iff the input led with a blank, visible characters kept |
| TextNormalize.CollapseBlanksSqueezes | transaction_categorizer/sub_agents/gmail_agent/gmail_tool.py:141 | each maximal run of spaces and tabs becomes exactly one space and every other character is kept in place (agrees with the character-by-character rule `Squeeze`) |
| TextNormalize.CollapseNewlineRunsCaps | transaction_categorizer/sub_agents/gmail_agent/gmail_tool.py:143 | each run of two or more newlines becomes exactly two newlines, a single newline and every other character are kept (agrees with the character-by-character rule `CapNewlines`) |
| TextNormalize.CollapseNewlineRunsNoTriple | transaction_categorizer/sub_agents/gmail_agent/gmail_tool.py:143 | after `re.sub(r'\n\n+', '\n\n', …)` no three newlines follow each other |
| TextNormalize.CollapseNewlineRunsNoTab | transaction_categorizer/sub_agents/gmail_agent/gmail_tool.py:148 | collapsing blank lines introduces no tab |
| TextNormalize.CollapseNewlineRunsNoDoubleSpace | transaction_categorizer/sub_agents/gmail_agent/gmail_tool.py:148 | collapsing blank lines introduces no double space |
| TextNormalize.CollapseNewlineRunsVisible | transaction_categorizer/sub_agents/gmail_agent/gmail_tool.py:143 | collapsing blank lines removes newlines only |
| TextNormalize.NormalizePlainText | transaction_categorizer/sub_agents/gmail_agent/gmail_tool.py:147-149 | the plain-text result is the stripped text in which every blank run became one space and every run of two or more newlines became two; it is clean and has the visible characters of the input, in order |
| TextNormalize.SplitLinesVisible | transaction_categorizer/sub_agents/gmail_agent/gmail_tool.py:142 | `splitlines()` removes line boundaries only |
| TextNormalize.SplitLinesNoTab | transaction_categorizer/sub_agents/gmail_agent/gmail_tool.py:142 | lines of a text without tabs have no tabs |
| TextNormalize.SplitLinesNoDoubleSpace | transaction_categorizer/sub_agents/gmail_agent/gmail_tool.py:142 | lines of a text without double spaces have none |
| TextNormalize.StripLines | transaction_categorizer/sub_agents/gmail_agent/gmail_tool.py:142 | `[line.strip() for line in …]`: one stripped line per line |
| TextNormalize.StripLinesVisible | transaction_categorizer/sub_agents/gmail_agent/gmail_tool.py:142 | stripping the lines keeps their visible characters |
| TextNormalize.JoinNewlineVisible | transaction_categorizer/sub_agents/gmail_agent/gmail_tool.py:142 | `"\n".join` adds whitespace only |
| TextNormalize.JoinNewlineNoDoubleSpace | transaction_categorizer/sub_agents/gmail_agent/gmail_tool.py:142 | joining lines free of double spaces with newlines creates none |
| TextNormalize.StripVisible | transaction_categorizer/sub_agents/gmail_agent/gmail_tool.py:144 | `strip()` removes whitespace only |
| TextNormalize.NormalizeHtmlText | transaction_categorizer/sub_agents/gmail_agent/gmail_tool.py:140-145 | the HTML-text result is the stripped join of the stripped lines of the blank-collapsed text, with every run of two or more newlines made two; it is clean and has the visible characters of the parser's text, in order |
| GmailBody.BestText | transaction_categorizer/sub_agents/gmail_agent/gmail_tool.py:179-207 | a text found is never empty |
| GmailBody.NestedWins | transaction_categorizer/sub_agents/gmail_agent/gmail_tool.py:192-195 | the first nested multipart with text decides the result, whatever HTML or plain parts come before it |
| GmailBody.HtmlBeatsPlain | transaction_categorizer/sub_agents/gmail_agent/gmail_tool.py:196-198 | without nested text, the first non-empty decoded HTML part is the result even when plain text comes first |
| GmailBody.PlainAsFallback | transaction_categorizer/sub_agents/gmail_agent/gmail_tool.py:199-206 | without nested text and HTML text, the first non-empty decoded plain part is the result |
| GmailBody.NothingFound | transaction_categorizer/sub_agents/gmail_agent/gmail_tool.py:207 | with none of the three the result is `None` |
| GmailBody.MultipartIsNotText | transaction_categorizer/sub_agents/gmail_agent/gmail_tool.py:192-199 | a `multipart/` type is never `text/html` or `text/plain`, so the branches are exclusive |
| GmailBody.FindBestTextInParts | transaction_categorizer/sub_agents/gmail_agent/gmail_tool.py:179-207 | the loop with its early return computes `BestText` |
| GmailBody.ExtractEmailBody | transaction_categorizer/sub_agents/gmail_agent/gmail_tool.py:209-224 | empty payload gives `None`; a `parts` list gives its best text; otherwise decoded data of a text/plain or text/html payload, else `None` |
| GmailQuery.ParsedHeadersMeaning | transaction_categorizer/sub_agents/gmail_agent/gmail_tool.py:254-265 | a lower-cased name is a key iff non-empty and present; its entry holds all its values in order, a single value when it occurs once |
| GmailQuery.ParsedHeadersMultiple | transaction_categorizer/sub_agents/gmail_agent/gmail_tool.py:259-263 | a name turned into a list occurred at least twice |
| GmailQuery.ParseHeaders | transaction_categorizer/sub_agents/gmail_agent/gmail_tool.py:254-265 | the header loop computes `ParsedHeaders` |
| GmailQuery.SummarizeSubject | transaction_categorizer/sub_agents/gmail_agent/gmail_tool.py:254-272 | the subject reported is absent exactly when no header is named `subject` in any case; otherwise it holds all their values in order |
| GmailQuery.GetEmailDetailsStructured | transaction_categorizer/sub_agents/gmail_agent/gmail_tool.py:226-277 | the details of a fetched message are its summary |
| GmailQuery.BuildSearchQuery | transaction_categorizer/sub_agents/gmail_agent/gmail_tool.py:309-313 | the query starts with the user query and gains ` after:` and ` before:` clauses only for given, non-empty dates |
| GmailQuery.QueryEmailsStructured | transaction_categorizer/sub_agents/gmail_agent/gmail_tool.py:286-351 | no service or a failed list gives `[]`; otherwise one summary per successful fetch, in listed order |
| GmailQuery.ShownBody | transaction_categorizer/sub_agents/gmail_agent/gmail_tool.py:165-167 | the notice is shown iff the body is missing, empty or starts with "(Error"; otherwise the body itself |
| GmailQuery.FormatEmailForDisplay | transaction_categorizer/sub_agents/gmail_agent/gmail_tool.py:154-177 | an empty dict gives the fixed message; otherwise the six lines Date, From, To, Subject, Body: and the body, with their defaults |
| MailSearch.Outcomes | gmail_agent/tools.py:168-174 | one fetch per reference, in reference order |
| MailSearch.Take | transaction_categorizer/tools.py:104-107 | at most `cap` leading elements, none for a cap not above zero |
| MailSearch.SuccessesAppend | gmail_agent/tools.py:176-195 | the successes of consecutive outcomes are concatenated, none dropped or reordered |
| MailSearch.SuccessesEmpty | gmail_agent/tools.py:197-198 | no success exactly when every fetch failed |
| MailSearch.SuccessesPrefix | gmail_agent/tools.py:168-171 | stopping early keeps a prefix of the successes |
| MailSearch.CappedLoopDone | gmail_agent/tools.py:168-195 | a loop that stops at the cap or the end has rendered exactly the first `cap` successes |
| MailSearch.FirstSubjectAt | gmail_agent/tools.py:182-185 | the first header named `subject` in any case decides the subject |
| MailSearch.FirstSubjectAbsent | transaction_categorizer/tools.py:115-120 | without one the subject is "(No Subject Header)" |
| MailSearch.SubjectOf | transaction_categorizer/tools.py:115-120 | the header loop with `break` computes the first subject |
| MailSearch.ServiceInitError | gmail_agent/tools.py:152-155 | the error text starts with the fixed message and ends with the exception details |
| MailSearch.SummaryHeaderCounts | transaction_categorizer/tools.py:130 | the summary header is the fixed words around the entry and reference counts, which read back as the counts |
| MailSearch.SummaryIsNotSentinel | gmail_agent/tools.py:200 | a summary never equals either sentinel answer |
| MailSearch.ReportNoEmails | gmail_agent/tools.py:160-162 | "No emails found…" is answered exactly when the search yields no ids |
| MailSearch.ReportCouldNotRetrieve | gmail_agent/tools.py:197-198 | "Found email references, but…" exactly when ids were found but no fetch succeeded or the cap is not positive |
| MailSearch.ReportSummary | gmail_agent/tools.py:200 | otherwise the summary of between 1 and `cap` entries, one per successful fetch in reference order |
| MailSearch.FetchNext | gmail_agent/tools.py:173-193 | one fetch: the count and the entries grow by exactly the message fetched, if the get call succeeded |
| MailSearch.CollectEntries | gmail_agent/tools.py:164-195 | the loop renders the first `cap` successful fetches; it stops early only once `cap` were fetched, and the last get call was made while fewer than `cap` messages had been fetched |
| MailSearch.RunSearch | transaction_categorizer/tools.py:84-131 | the tool's answer is the search report; no fetch after a start-up error; the get calls made are exactly those needed to find the first `cap` successes: no earlier stop, and none after the cap was met |
| AgentTools.StripTags | gmail_agent/tools.py:99 | `re.sub('<[^>]+>', '', …)`: no tag is left, a text without `>` stays without, a leading non-`<` character is kept, the result is no longer |
| AgentTools.StripTagsKeepsTagFree | gmail_agent/tools.py:99 | a text in which no tag is left comes through unchanged (the removal is idempotent) |
| AgentTools.StripTagsDropsTag | gmail_agent/tools.py:99 | `<`, one or more characters other than `>`, then `>` is removed and the rest is processed on |
| AgentTools.StripTagsKeepsText | gmail_agent/tools.py:99 | text without `<` in front of the rest is kept verbatim |
| AgentTools.StripTagsKeepsEmptyBrackets | gmail_agent/tools.py:99 | `<>` is kept, since the pattern needs a character between the brackets |
| AgentTools.CollapseSpace | gmail_agent/tools.py:100 | `re.sub(r'\s+', ' ', …)`: only single spaces remain, visible characters kept, no tag reintroduced |
| AgentTools.CollapseSpaceSqueezes | gmail_agent/tools.py:100 | each maximal whitespace run becomes exactly one space and every other character is kept in place (agrees with `Squeeze`) |
| AgentTools.CleanHtml | gmail_agent/tools.py:97-100 | the HTML clean-up is the stripped, whitespace-squeezed untagged text: no tag, single spaces, no surrounding whitespace, and the visible text of the untagged input |
| AgentTools.DecodeBody | gmail_agent/tools.py:91-103 | a decoding failure gives "(Error decoding body)"; plain data is returned as decoded; HTML data is exactly `CleanHtml` of the decoded text |
| AgentTools.FirstPlainChosen | gmail_agent/tools.py:76-80 | the first text/plain sibling is chosen, whatever HTML parts come before or after it |
| AgentTools.NestedReturned | gmail_agent/tools.py:83-87 | a nested multipart with a body is returned as soon as it is reached |
| AgentTools.HtmlWithoutPlain | gmail_agent/tools.py:81-89 | HTML is used only when nothing stops the scan, and then the last HTML part |
| AgentTools.NothingUsable | gmail_agent/tools.py:71-91 | no usable text part and no nested body give "(Could not extract body)" |
| AgentTools.SinglePartWithoutData | gmail_agent/tools.py:105-118 | a single part without data gives the sentinel |
| AgentTools.DecodeFailure | gmail_agent/tools.py:91-116 | a failed decode gives "(Error decoding body)" in both branches |
| AgentTools.ExtractBodyFromPayload | gmail_agent/tools.py:69-118 | the loop with early return and recursion computes `BodyFromPayload` |
| AgentTools.Truncate | gmail_agent/tools.py:190-191 | a body of at most 1000 characters is kept; a longer one is cut to its first 1000 plus "..." |
| AgentTools.SearchGmailForTransactions | gmail_agent/tools.py:121-202 | the answer is the search report over subject and truncated body entries, with the fetch bounds of `RunSearch` |
| CategorizerTools.SearchGmailForTransactions | transaction_categorizer/tools.py:65-131 | the answer is the search report over subject and snippet entries, with the fetch bounds of `RunSearch` |
| ReceiptSearch.SearchWindowMeaning | transaction_categorizer/gmail_tools.py:81-82 | the window exists iff both bounds stay in years 1..9999, and it runs from `w` days before to `w + 1` days after |
| ReceiptSearch.DateRangeReadBack | transaction_categorizer/gmail_tools.py:85-96 | the date clause is 34 characters, `after:` and ` before:` at fixed places, and both dates parse back |
| ReceiptSearch.EscapeQuotes | transaction_categorizer/gmail_tools.py:104 | every `"` of the escaped name follows a backslash |
| ReceiptSearch.UnescapeEscape | transaction_categorizer/gmail_tools.py:104-105 | unescaping the escaped name gives the name back |
| ReceiptSearch.AmountNumber | transaction_categorizer/gmail_tools.py:92 | `re.sub(r'[^\d.]', '', …)`: only digits and dots, no longer than the input |
| ReceiptSearch.AmountNumberCount | transaction_categorizer/gmail_tools.py:92 | each digit and dot kept as often as it occurs, every other character dropped |
| ReceiptSearch.AmountNumberAppend | transaction_categorizer/gmail_tools.py:92 | the filter distributes over concatenation |
| ReceiptSearch.AmountNumberIdempotent | transaction_categorizer/gmail_tools.py:92 | filtering twice is filtering once |
| ReceiptSearch.ReceiptQuery | transaction_categorizer/gmail_tools.py:79-115 | a query exists iff the date parses and the window fits; it starts with `after:` |
| ReceiptSearch.QueryText | transaction_categorizer/gmail_tools.py:95-115 | the query is the date clause, the keywords, then merchant and amount clauses when present, one space apart |
| ReceiptSearch.CollectQueryParts | transaction_categorizer/gmail_tools.py:95-112 | the appends build `QueryParts` |
| ReceiptSearch.BuildReceiptQuery | transaction_categorizer/gmail_tools.py:79-115 | the query built step by step equals `ReceiptQuery` |
| ReceiptSearch.WithHeadersLastWins | transaction_categorizer/gmail_tools.py:148-156 | the last Subject, Date or From header decides its key |
| ReceiptSearch.WithHeadersUntouched | transaction_categorizer/gmail_tools.py:148-156 | a key no header is copied to keeps its entry or its absence |
| ReceiptSearch.WithHeadersKeys | transaction_categorizer/gmail_tools.py:148-156 | the keys are those present before and those some header was copied to |
| ReceiptSearch.CopyHeaders | transaction_categorizer/gmail_tools.py:148-156 | the header loop computes `WithHeaders` |
| ReceiptSearch.EmailDataFields | transaction_categorizer/gmail_tools.py:146-156 | an entry holds the id and snippet, and no key outside id, snippet, subject, date, from |
| ReceiptSearch.FetchAllMeaning | transaction_categorizer/gmail_tools.py:134-167 | entries exist iff every fetch succeeds, then one per id in order |
| ReceiptSearch.FetchAllFailed | transaction_categorizer/gmail_tools.py:139-174 | a failed fetch in a prefix fails the whole list |
| ReceiptSearch.SearchReceiptsShape | transaction_categorizer/gmail_tools.py:57-175 | the result is empty, or one entry per listed id in listed order, each carrying its id |
| ReceiptSearch.SearchReceiptsFetchFailure | transaction_categorizer/gmail_tools.py:139-174 | one failed fetch of a listed message empties the whole result |
| ReceiptSearch.FetchEntries | transaction_categorizer/gmail_tools.py:134-167 | the loop returns all entries, or `[]` once a fetch raises |
| ReceiptSearch.ListAndFetch | transaction_categorizer/gmail_tools.py:119-167 | the list call with cap 10 and the fetch loop compute `ListedReceipts` |
| ReceiptSearch.SearchGmailReceipts | transaction_categorizer/gmail_tools.py:57-175 | the tool computes `SearchReceipts` |

## Left out

- Authentication and service construction (`get_gmail_service`, `_get_cached_gmail_service`, `authenticate_gmail`) touch files, OAuth and the network. They are modelled as a flag or as the exception text of a failed start-up. The module-level cache is not modelled.
- The Gmail API calls are function parameters. The model does not assume the service honours `maxResults`.
- Base64url decoding, UTF-8 decoding and BeautifulSoup's parsing and rendering are function values. The anchor-label rule is proved on its own, but its use inside the parser's rendering is not modelled.
- Logging, `print` and the `__main__` blocks are left out.
- Common.LowerAscii: lower-cases ASCII letters only. This is enough for every comparison against the ASCII names `subject`, `text/html` and `multipart/`, but not for dictionary keys built from non-ASCII header names.
- Calendar.ParseDate: reads ASCII digits only, where Python's `\d` also accepts other Unicode decimal digits.
- GmailQuery.GetEmailDetailsStructured: the result holds subject, from, to, date and the extracted body only. The dictionary's `id`, `threadId`, `snippet`, `historyId`, `internalDate`, `labelIds`, `sizeEstimate` and `raw_payload` are copied from the message without computation, and `cc`, `message_id` and `all_headers` are further lookups in the same parsed-header map that `GmailQuery.ParseHeaders` models.
- ReceiptSearch.AmountNumber: counts only ASCII `0`-`9` as digits. Python's `\d` on a `str` also matches every other Unicode decimal digit (category Nd), which the model drops.
- ReceiptSearch.AmountNumberCount: same ASCII-digit restriction as `ReceiptSearch.AmountNumber`.
- ReceiptSearch.DateRangeReadBack: holds only for years from 1000 on. Whether `%Y` pads a smaller year to four digits depends on the platform's C `strftime`; the model renders it unpadded (as glibc does), which `strptime` would not read back.
- The `amount` argument is taken as the text `str(amount)` already produced; float formatting is not modelled. `search_window_days` is an integer, so `timedelta` of a fractional number of days is not modelled.
- The unused `amount_match` computation of `search_gmail_receipts` is not modelled. It lower-cases the snippet, so a present `None` snippet there would raise and empty the result; the model reads a missing snippet as `''` and a present one as text.
- A part without `mimeType` in gmail_agent/tools.py would make `.startswith` raise outside any handler. The model reads a missing type as the empty string.
- The header values of gmail_tool.py that turn into lists are kept as lists. Their rendering by `format_email_for_display` is not modelled: the display function takes text fields.
- Python dicts are maps, so their key order is not modelled.
