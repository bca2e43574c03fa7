/** The rest of transaction_categorizer/sub_agents/gmail_agent/gmail_tool.py: header
    parsing in `get_email_details_structured`, `query_gmail_emails_structured` and
    `format_email_for_display`. */
module GmailQuery {
  import opened Common
  import opened MimeTree
  import opened GmailText
  import opened GmailBody
  import opened MailSearch

  // ---- header parsing

  /** A parsed header: one value, or the list of all values of a repeated name. */
  datatype HeaderValue = Single(value: Option<string>) | Multiple(values: seq<Option<string>>)

  function Values(v: HeaderValue): seq<Option<string>>
  {
    match v
    case Single(x) => [x]
    case Multiple(xs) => xs
  }

  /** Adding one more value under a name already present. */
  function Gather(v: HeaderValue, x: Option<string>): HeaderValue
  {
    match v
    case Single(y) => Multiple([y, x])
    case Multiple(ys) => Multiple(ys + [x])
  }

  /** `parsed_headers` after the loop over `headers`. */
  function ParsedHeaders(headers: seq<Header>): map<string, HeaderValue>
  {
    if headers == [] then map[]
    else
      var parsed := ParsedHeaders(headers[..|headers| - 1]);
      var h := headers[|headers| - 1];
      var name := LowerAscii(h.name);
      if name == "" then parsed
      else if name in parsed then parsed[name := Gather(parsed[name], h.value)]
      else parsed[name := Single(h.value)]
  }

  /** The values of the headers whose lower-cased name is `name`, in order. */
  function Occurrences(headers: seq<Header>, name: string): seq<Option<string>>
  {
    if headers == [] then []
    else
      var earlier := Occurrences(headers[..|headers| - 1], name);
      if LowerAscii(headers[|headers| - 1].name) == name then earlier + [headers[|headers| - 1].value] else earlier
  }

  /** A name is a key exactly when it is non-empty and occurs; its entry holds every value
      under that name in order, none dropped; it is a list exactly when the name repeats. */
  lemma {:induction false} ParsedHeadersMeaning(headers: seq<Header>)
    ensures forall name :: name in ParsedHeaders(headers) <==> name != "" && Occurrences(headers, name) != []
    ensures forall name :: name in ParsedHeaders(headers) ==> Values(ParsedHeaders(headers)[name]) == Occurrences(headers, name)
    ensures forall name :: name in ParsedHeaders(headers) ==>
      (ParsedHeaders(headers)[name].Single? <==> |Occurrences(headers, name)| == 1)
  {
    if headers != [] {
      var init := headers[..|headers| - 1];
      ParsedHeadersMeaning(init);
      ParsedHeadersMultiple(init);
    }
  }

  lemma {:induction false} ParsedHeadersMultiple(headers: seq<Header>)
    ensures forall name :: name in ParsedHeaders(headers) && ParsedHeaders(headers)[name].Multiple? ==>
      |ParsedHeaders(headers)[name].values| >= 2
  {
    if headers != [] {
      ParsedHeadersMultiple(headers[..|headers| - 1]);
    }
  }

  /** The loop filling `parsed_headers`. */
  method ParseHeaders(headers: seq<Header>) returns (parsed: map<string, HeaderValue>)
    ensures parsed == ParsedHeaders(headers)
  {
    parsed := map[];
    var i := 0;
    while i < |headers|
      invariant 0 <= i <= |headers|
      invariant parsed == ParsedHeaders(headers[..i])
    {
      var name := LowerAscii(headers[i].name);
      var value := headers[i].value;
      assert headers[..i + 1][..i] == headers[..i];
      if name != "" {
        if name in parsed {
          match parsed[name]
          case Multiple(values) =>
            parsed := parsed[name := Multiple(values + [value])];
          case Single(first) =>
            parsed := parsed[name := Multiple([first, value])];
        } else {
          parsed := parsed[name := Single(value)];
        }
      }
      i := i + 1;
    }
    assert headers[..i] == headers;
  }

  /** `parsed_headers.get(name)`. */
  function Lookup(parsed: map<string, HeaderValue>, name: string): Option<HeaderValue>
  {
    if name in parsed then Some(parsed[name]) else None
  }

  // ---- `get_email_details_structured` and `query_gmail_emails_structured`

  /** The entry the query reports per message: subject, from, to, body and date. */
  datatype EmailSummary = EmailSummary(subject: Option<HeaderValue>, from: Option<HeaderValue>,
                                       to: Option<HeaderValue>, body: Option<string>,
                                       date: Option<HeaderValue>)

  /** What the query reports for a fetched message; a missing or empty payload leaves
      everything `None`. */
  function Summarize(codec: Codec, m: Message): EmailSummary
  {
    if m.payload.Some? && m.payload.value != EmptyPayload then
      var parsed := ParsedHeaders(m.payload.value.headers);
      EmailSummary(Lookup(parsed, "subject"), Lookup(parsed, "from"), Lookup(parsed, "to"),
                   ExtractEmailBody(codec, m.payload.value), Lookup(parsed, "date"))
    else EmailSummary(None, None, None, None, None)
  }

  /** The subject reported for a message is every `subject` header value, in order. */
  lemma SummarizeSubject(codec: Codec, m: Message)
    requires m.payload.Some? && m.payload.value != EmptyPayload
    ensures var occ := Occurrences(m.payload.value.headers, "subject");
      var s := Summarize(codec, m).subject;
      (s.None? <==> occ == []) && (s.Some? ==> Values(s.value) == occ)
  {
    ParsedHeadersMeaning(m.payload.value.headers);
  }

  method GetEmailDetailsStructured(codec: Codec, m: Message) returns (s: EmailSummary)
    ensures s == Summarize(codec, m)
  {
    s := EmailSummary(None, None, None, None, None);
    if m.payload.Some? && m.payload.value != EmptyPayload {
      var parsed := ParseHeaders(m.payload.value.headers);
      s := EmailSummary(Lookup(parsed, "subject"), Lookup(parsed, "from"), Lookup(parsed, "to"),
                        ExtractEmailBody(codec, m.payload.value), Lookup(parsed, "date"));
    }
  }

  /** `" after:" + date` when the date is given (and non-empty). */
  function DateClause(operator: string, date: Option<string>): string
  {
    if date.Some? && date.value != "" then operator + date.value else ""
  }

  /** The query sent to the list call. */
  function SearchQuery(query: string, after: Option<string>, before: Option<string>): string
  {
    query + DateClause(" after:", after) + DateClause(" before:", before)
  }

  /** `search_query` built step by step. */
  method BuildSearchQuery(query: string, after: Option<string>, before: Option<string>) returns (q: string)
    ensures q == SearchQuery(query, after, before)
    ensures StartsWith(q, query)
    ensures after.Some? && after.value != "" && before.Some? && before.value != "" ==>
      var k := |query| + 7 + |after.value|;
      q[|query|..k] == " after:" + after.value && q[k..] == " before:" + before.value
    ensures !(after.Some? && after.value != "") && !(before.Some? && before.value != "") ==> q == query
  {
    q := query;
    if after.Some? && after.value != "" {
      q := q + " after:" + after.value;
    }
    if before.Some? && before.value != "" {
      q := q + " before:" + before.value;
    }
  }

  /** `query_gmail_emails_structured`: `serviceAvailable` is whether a service object was
      obtained, `list` the list call (`None` when it raises), `fetch` the get call (`None`
      when it fails or returns nothing). The result is the list under `"emails"`. */
  method QueryEmailsStructured(codec: Codec, serviceAvailable: bool,
                               list: (string, int) -> Option<seq<string>>, fetch: string -> Option<Message>,
                               query: string, after: Option<string>, before: Option<string>, maxResults: int)
    returns (emails: seq<EmailSummary>)
    ensures !serviceAvailable ==> emails == []
    ensures serviceAvailable && list(SearchQuery(query, after, before), maxResults).None? ==> emails == []
    ensures serviceAvailable && list(SearchQuery(query, after, before), maxResults).Some? ==>
      var outs := Outcomes(fetch, list(SearchQuery(query, after, before), maxResults).value);
      |emails| == |Successes(outs)|
      && forall k :: 0 <= k < |emails| ==> emails[k] == Summarize(codec, Successes(outs)[k])
  {
    emails := [];
    if !serviceAvailable {
      return;
    }
    var searchQuery := BuildSearchQuery(query, after, before);
    var response := list(searchQuery, maxResults);
    if response.None? || response.value == [] {
      return;
    }
    var refs := response.value;
    ghost var outs := Outcomes(fetch, refs);
    var i := 0;
    while i < |refs|
      invariant 0 <= i <= |refs|
      invariant emails == MapSeq((m: Message) => Summarize(codec, m), Successes(outs[..i]))
    {
      var details := fetch(refs[i]);
      SuccessesStep(outs, i);
      if details.Some? {
        var summary := GetEmailDetailsStructured(codec, details.value);
        MapSeqStep((m: Message) => Summarize(codec, m), Successes(outs[..i]), details.value);
        emails := emails + [summary];
      }
      i := i + 1;
    }
    assert outs[..i] == outs;
  }

  // ---- `format_email_for_display`

  const NoEmailData := "No email data to display."
  const NoBodyNotice := "(No readable body content found or error in processing)"

  /** `f"{email_data.get(key, default)}"`: a present `None` renders as `None`. */
  function Field(email: map<string, Option<string>>, key: string, default: string): string
  {
    if key !in email then default
    else if email[key].None? then "None"
    else email[key].value
  }

  /** The body shown: the notice when the body is missing, empty or an error text. */
  function ShownBody(email: map<string, Option<string>>): (r: string)
    ensures r == NoBodyNotice <==>
      "body" !in email || email["body"].None? || email["body"].value == ""
      || StartsWith(email["body"].value, "(Error") || email["body"].value == NoBodyNotice
    ensures r != NoBodyNotice ==> "body" in email && email["body"] == Some(r)
  {
    if "body" !in email || email["body"].None? then NoBodyNotice
    else
      var b := email["body"].value;
      if b == "" || StartsWith(b, "(Error") then NoBodyNotice else b
  }

  function FormatEmailForDisplay(email: map<string, Option<string>>): (r: string)
    ensures email == map[] ==> r == NoEmailData
    ensures email != map[] ==>
      r == ("Date: " + Field(email, "date", "N/A")) + "\n" + ("From: " + Field(email, "from", "N/A")) + "\n"
           + ("To: " + Field(email, "to", "N/A")) + "\n" + ("Subject: " + Field(email, "subject", "(No Subject)")) + "\n"
           + "Body:" + "\n" + ShownBody(email)
  {
    if email == map[] then NoEmailData
    else
      var lines := ["Date: " + Field(email, "date", "N/A"), "From: " + Field(email, "from", "N/A"),
                    "To: " + Field(email, "to", "N/A"), "Subject: " + Field(email, "subject", "(No Subject)"),
                    "Body:", ShownBody(email)];
      JoinSix(lines, "\n");
      Join(lines, "\n")
  }
}
