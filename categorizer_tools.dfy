/** `search_gmail_for_transactions` of transaction_categorizer/tools.py: subject and
    snippet of at most `max_results` fetched messages. */
module CategorizerTools {
  import opened Common
  import opened MimeTree
  import opened MailSearch

  const NoSnippet := "(No snippet)"

  /** `message_detail.get('snippet', '(No snippet)')`. */
  function SnippetOf(m: Message): string
  {
    if m.snippet.Some? then m.snippet.value else NoSnippet
  }

  /** One line pair of the summary. */
  function Entry(m: Message): string
  {
    "- Subject: " + FirstSubject(MessageHeaders(m)) + "\n  Snippet: " + SnippetOf(m)
  }

  /** The tool: the shared search, fetch loop and report, with one subject-and-snippet
      entry per fetched message. `initError` is the exception text when the service cannot
      be set up; `search` and `fetch` stand for the list and get calls, `None` for a failed
      call. `fetches` is the number of get calls made. */
  method SearchGmailForTransactions(initError: Option<string>, search: string -> Option<seq<string>>,
                                    fetch: string -> Option<Message>, query: string, maxResults: int)
    returns (r: string, fetches: nat)
    ensures r == SearchReport(Entry, initError, Refs(search, query), Outcomes(fetch, Refs(search, query)), maxResults)
    ensures fetches <= |Refs(search, query)|
    ensures initError.Some? ==> fetches == 0
    ensures initError.None? ==>
      var outs := Outcomes(fetch, Refs(search, query));
      var got := Take(Successes(outs), maxResults);
      Successes(outs[..fetches]) == got && (fetches < |outs| ==> |got| >= maxResults)
      && (fetches > 0 ==> |Successes(outs[..fetches - 1])| < maxResults)
  {
    r, fetches := RunSearch(Entry, initError, search, fetch, query, maxResults);
  }
}
