/** `search_gmail_receipts` of transaction_categorizer/gmail_tools.py: a query built from a
    transaction's date, amount and merchant, one list call capped at ten messages, and for
    every message found its id, snippet and `Subject`, `Date` and `From` headers. Any
    exception, in building the query or in any call, makes the whole result empty. */
module ReceiptSearch {
  import opened Common
  import opened MimeTree
  import opened MailSearch
  import opened Calendar

  // ---- the date window

  /** `d - timedelta(days=w)` and `d + timedelta(days=w + 1)`; `None` where either
      raises `OverflowError`. The second bound is one day further out because the
      `before:` operator excludes its own day. */
  function SearchWindow(d: Date, w: int): (r: Option<(Date, Date)>)
    requires Valid(d)
    ensures r.Some? ==> Valid(r.value.0) && Valid(r.value.1)
  {
    var start := AddDays(d, -w);
    var end := AddDays(d, w + 1);
    if start.None? || end.None? then None else Some((start.value, end.value))
  }

  /** The window exists exactly when both bounds stay in the years 1 to 9999; it runs
      from `w` days before the date to `w + 1` days after it, so that its `after:` and
      `before:` pair covers the `2w + 1` days around the date. */
  lemma SearchWindowMeaning(d: Date, w: int)
    requires Valid(d)
    ensures SearchWindow(d, w).Some? <==>
      1 <= Ordinal(d) - w <= MaxOrdinal && 1 <= Ordinal(d) + w + 1 <= MaxOrdinal
    ensures SearchWindow(d, w).Some? ==>
      Ordinal(SearchWindow(d, w).value.0) == Ordinal(d) - w
      && Ordinal(SearchWindow(d, w).value.1) == Ordinal(d) + w + 1
  {
    var start := AddDays(d, -w);
    var end := AddDays(d, w + 1);
    AddDaysDefined(d, -w);
    AddDaysDefined(d, w + 1);
    if start.Some? && end.Some? {
      assert SearchWindow(d, w) == Some((start.value, end.value));
    } else {
      assert SearchWindow(d, w).None?;
    }
  }

  /** `f"after:{start:%Y/%m/%d} before:{end:%Y/%m/%d}"`. */
  function DateRangeClause(start: Date, end: Date): string
    requires Valid(start) && Valid(end)
  {
    "after:" + FormatDate(start, '/') + " before:" + FormatDate(end, '/')
  }

  /** The two dates of the clause read back with the same format (years from 1000 on,
      where `%Y` has four digits). */
  lemma DateRangeReadBack(start: Date, end: Date)
    requires Valid(start) && Valid(end) && start.year >= 1000 && end.year >= 1000
    ensures var c := DateRangeClause(start, end);
      |c| == 34 && c[..6] == "after:" && c[16..24] == " before:"
      && ParseDate(c[6..16], '/') == Some(start) && ParseDate(c[24..], '/') == Some(end)
  {
    var a := FormatDate(start, '/');
    var b := FormatDate(end, '/');
    FormatDateShape(start, '/');
    FormatDateShape(end, '/');
    ParseFormatted(start, '/');
    ParseFormatted(end, '/');
    var c := DateRangeClause(start, end);
    assert c == "after:" + a + " before:" + b;
    assert c[6..16] == a;
    assert c[24..] == b;
  }

  // ---- the other query parts

  /** The fixed keyword part of every query. */
  const KeywordClause := "subject:(\"order confirmation\" OR \"your receipt\" OR \"invoice\" OR "
    + "\"payment confirmation\" OR \"order details\" OR \"booking confirmation\") OR "
    + "\"receipt\" OR \"invoice\" OR \"order\""

  /** `merchant_name.replace('"', '\\"')`. */
  function EscapeQuotes(s: string): (r: string)
    ensures forall i :: 0 <= i < |r| && r[i] == '"' ==> 0 < i && r[i - 1] == '\\'
  {
    if s == [] then []
    else
      var head := if s[0] == '"' then "\\\"" else [s[0]];
      var rest := EscapeQuotes(s[1..]);
      EscapedCons(head, rest);
      head + rest
  }

  lemma EscapedCons(head: string, rest: string)
    requires head == "\\\"" || (|head| == 1 && head[0] != '"')
    requires forall i :: 0 <= i < |rest| && rest[i] == '"' ==> 0 < i && rest[i - 1] == '\\'
    ensures forall i :: 0 <= i < |head + rest| && (head + rest)[i] == '"' ==>
      0 < i && (head + rest)[i - 1] == '\\'
  {
    var r := head + rest;
    forall i | 0 <= i < |r| && r[i] == '"' ensures 0 < i && r[i - 1] == '\\' {
      if i >= |head| {
        assert r[i] == rest[i - |head|];
        if i - |head| > 0 {
          assert r[i - 1] == rest[i - |head| - 1];
        }
      }
    }
  }

  /** Reading an escaped merchant name back: `\"` stands for a quote. */
  function UnescapeQuotes(s: string): string
  {
    if s == [] then []
    else if |s| >= 2 && s[0] == '\\' && s[1] == '"' then "\"" + UnescapeQuotes(s[2..])
    else [s[0]] + UnescapeQuotes(s[1..])
  }

  /** Escaping loses nothing: the merchant name is recovered from the query text. */
  lemma {:induction false} UnescapeEscape(s: string)
    ensures UnescapeQuotes(EscapeQuotes(s)) == s
  {
    if s != [] {
      var rest := EscapeQuotes(s[1..]);
      UnescapeEscape(s[1..]);
      if s[0] == '"' {
        assert EscapeQuotes(s) == "\\\"" + rest;
        assert ("\\\"" + rest)[2..] == rest;
      } else {
        assert EscapeQuotes(s) == [s[0]] + rest;
        assert ([s[0]] + rest)[1..] == rest;
        assert rest == [] || rest[0] != '"';
      }
    }
  }

  /** `f'(subject:("{safe}") OR from:("{safe}"))'`. */
  function MerchantClause(safe: string): string
  {
    "(subject:(\"" + safe + "\") OR from:(\"" + safe + "\"))"
  }

  predicate IsAmountChar(c: char)
  {
    IsDigit(c) || c == '.'
  }

  /** `re.sub(r'[^\d.]', '', s)`: the digits and dots of `s`, in order. */
  function AmountNumber(s: string): (r: string)
    ensures |r| <= |s|
    ensures forall i :: 0 <= i < |r| ==> IsAmountChar(r[i])
  {
    if s == [] then []
    else (if IsAmountChar(s[0]) then [s[0]] else []) + AmountNumber(s[1..])
  }

  /** Every digit and dot is kept, as often as it occurs; nothing else is. */
  lemma {:induction false} AmountNumberCount(s: string, c: char)
    ensures multiset(AmountNumber(s))[c] == if IsAmountChar(c) then multiset(s)[c] else 0
  {
    if s != [] {
      AmountNumberCount(s[1..], c);
      assert s == [s[0]] + s[1..];
      assert multiset(s) == multiset([s[0]]) + multiset(s[1..]);
    }
  }

  /** The filter works character by character, so it distributes over concatenation. */
  lemma {:induction false} AmountNumberAppend(a: string, b: string)
    ensures AmountNumber(a + b) == AmountNumber(a) + AmountNumber(b)
  {
    if a == [] {
      assert a + b == b;
    } else {
      assert (a + b)[0] == a[0] && (a + b)[1..] == a[1..] + b;
      AmountNumberAppend(a[1..], b);
    }
  }

  /** A text of digits and dots is left as it is; so filtering twice is filtering once. */
  lemma {:induction false} AmountNumberOfNumber(s: string)
    requires forall i :: 0 <= i < |s| ==> IsAmountChar(s[i])
    ensures AmountNumber(s) == s
  {
    if s != [] {
      AmountNumberOfNumber(s[1..]);
    }
  }

  lemma AmountNumberIdempotent(s: string)
    ensures AmountNumber(AmountNumber(s)) == AmountNumber(s)
  {
    AmountNumberOfNumber(AmountNumber(s));
  }

  /** `f'("{amount_str}" OR "{amount_num_str}")'`. */
  function AmountClause(text: string, number: string): string
  {
    "(\"" + text + "\" OR \"" + number + "\")"
  }

  /** The merchant part, present when `if merchant_name:` holds. */
  function MerchantPart(merchant: Option<string>): Option<string>
  {
    if merchant.Some? && merchant.value != "" then Some(MerchantClause(EscapeQuotes(merchant.value))) else None
  }

  /** The amount part, present when `if amount_num_str:` holds. */
  function AmountPart(amountText: string): Option<string>
  {
    var number := AmountNumber(amountText);
    if number != "" then Some(AmountClause(amountText, number)) else None
  }

  /** An optional part: one element or none. */
  function OptionalPart(x: Option<string>): seq<string>
  {
    if x.Some? then [x.value] else []
  }

  /** `query_parts` once the window is known: dates, keywords, then the merchant part,
      then the amount part. `amountText` is `str(amount)`. */
  function QueryParts(start: Date, end: Date, amountText: string, merchant: Option<string>): seq<string>
    requires Valid(start) && Valid(end)
  {
    [DateRangeClause(start, end), KeywordClause] + OptionalPart(MerchantPart(merchant)) + OptionalPart(AmountPart(amountText))
  }

  /** What an optional part adds to a join: the separator and the part, or nothing. */
  function OptionalText(x: Option<string>, sep: string): string
  {
    if x.Some? then sep + x.value else ""
  }

  /** Joining with an optional last part. */
  lemma JoinOptional(parts: seq<string>, x: Option<string>, sep: string)
    requires parts != []
    ensures Join(parts + OptionalPart(x), sep) == Join(parts, sep) + OptionalText(x, sep)
  {
    if x.Some? {
      JoinSnoc(parts, x.value, sep);
    } else {
      assert parts + OptionalPart(x) == parts;
    }
  }

  /** Joining two fixed parts and two optional ones. */
  lemma JoinParts(p0: string, p1: string, m: Option<string>, a: Option<string>, sep: string)
    ensures Join([p0, p1] + OptionalPart(m) + OptionalPart(a), sep)
      == p0 + sep + p1 + OptionalText(m, sep) + OptionalText(a, sep)
  {
    var fixed := [p0, p1];
    JoinCons(fixed, sep);
    assert fixed[1..] == [p1];
    JoinOptional(fixed, m, sep);
    JoinOptional(fixed + OptionalPart(m), a, sep);
  }

  /** The query for a date text `"YYYY-MM-DD"`, an amount text, an optional merchant and
      a window of `w` days; `None` where Python raises (the date does not parse, or the
      window leaves the calendar). */
  function ReceiptQuery(dateText: string, amountText: string, merchant: Option<string>, w: int): (r: Option<string>)
    ensures r.Some? <==> ParseDate(dateText, '-').Some? && SearchWindow(ParseDate(dateText, '-').value, w).Some?
    ensures r.Some? ==> StartsWith(r.value, "after:")
  {
    match ParseDate(dateText, '-')
    case None => None
    case Some(d) =>
      match SearchWindow(d, w)
      case None => None
      case Some(window) =>
        var parts := QueryParts(window.0, window.1, amountText, merchant);
        JoinStartsWith(parts, " ");
        Some(Join(parts, " "))
  }

  /** A join starts with its first part. */
  lemma JoinStartsWith(parts: seq<string>, sep: string)
    requires parts != []
    ensures StartsWith(Join(parts, sep), parts[0])
  {
    if |parts| > 1 {
      assert Join(parts, sep) == parts[0] + (sep + Join(parts[1..], sep));
    }
  }

  /** The query text part by part: the clauses in order, one space between each. */
  lemma QueryText(start: Date, end: Date, amountText: string, merchant: Option<string>)
    requires Valid(start) && Valid(end)
    ensures Join(QueryParts(start, end, amountText, merchant), " ")
      == DateRangeClause(start, end) + " " + KeywordClause
         + OptionalText(MerchantPart(merchant), " ") + OptionalText(AmountPart(amountText), " ")
  {
    JoinParts(DateRangeClause(start, end), KeywordClause, MerchantPart(merchant), AmountPart(amountText), " ");
  }

  /** `query_parts` built by appending, then `" ".join(query_parts)`. */
  method BuildReceiptQuery(dateText: string, amountText: string, merchant: Option<string>, w: int)
    returns (q: Option<string>)
    ensures q == ReceiptQuery(dateText, amountText, merchant, w)
  {
    var d := ParseDate(dateText, '-');
    if d.None? {
      return None;
    }
    var window := SearchWindow(d.value, w);
    if window.None? {
      return None;
    }
    var start, end := window.value.0, window.value.1;
    var parts := CollectQueryParts(start, end, amountText, merchant);
    q := Some(Join(parts, " "));
  }

  /** The appends to `query_parts`. */
  method CollectQueryParts(start: Date, end: Date, amountText: string, merchant: Option<string>)
    returns (parts: seq<string>)
    requires Valid(start) && Valid(end)
    ensures parts == QueryParts(start, end, amountText, merchant)
  {
    var amountNumber := AmountNumber(amountText);
    parts := [];
    parts := parts + [DateRangeClause(start, end)];
    parts := parts + [KeywordClause];
    if merchant.Some? && merchant.value != "" {
      var safe := EscapeQuotes(merchant.value);
      parts := parts + [MerchantClause(safe)];
    }
    ghost var withMerchant := parts;
    if amountNumber != "" {
      parts := parts + [AmountClause(amountText, amountNumber)];
    }
    assert parts == withMerchant + OptionalPart(AmountPart(amountText));
  }

  // ---- one message

  /** The headers copied into the result, by exact name, and the key each goes to. */
  function FieldKey(name: string): Option<string>
  {
    if name == "Subject" then Some("subject")
    else if name == "Date" then Some("date")
    else if name == "From" then Some("from")
    else None
  }

  /** `email_data` after the loop over `headers`: each matching header overwrites its key. */
  function WithHeaders(data: map<string, Option<string>>, headers: seq<Header>): map<string, Option<string>>
  {
    if headers == [] then data
    else
      var earlier := WithHeaders(data, headers[..|headers| - 1]);
      var h := headers[|headers| - 1];
      if FieldKey(h.name).Some? then earlier[FieldKey(h.name).value := h.value] else earlier
  }

  /** The last header of a copied name decides the value of its key. */
  lemma {:induction false} WithHeadersLastWins(data: map<string, Option<string>>, headers: seq<Header>, i: int)
    requires 0 <= i < |headers| && FieldKey(headers[i].name).Some?
    requires forall j :: i < j < |headers| ==> headers[j].name != headers[i].name
    ensures FieldKey(headers[i].name).value in WithHeaders(data, headers)
    ensures WithHeaders(data, headers)[FieldKey(headers[i].name).value] == headers[i].value
  {
    if i < |headers| - 1 {
      WithHeadersLastWins(data, headers[..|headers| - 1], i);
      var last := headers[|headers| - 1].name;
      assert last != headers[i].name;
      assert FieldKey(last) != FieldKey(headers[i].name);
    }
  }

  /** A key no header is copied to keeps its entry, or its absence. */
  lemma {:induction false} WithHeadersUntouched(data: map<string, Option<string>>, headers: seq<Header>, key: string)
    requires forall j :: 0 <= j < |headers| ==> FieldKey(headers[j].name) != Some(key)
    ensures key in WithHeaders(data, headers) <==> key in data
    ensures key in data ==> WithHeaders(data, headers)[key] == data[key]
  {
    if headers != [] {
      WithHeadersUntouched(data, headers[..|headers| - 1], key);
    }
  }

  /** The keys are those of `data` and those some header was copied to. */
  lemma {:induction false} WithHeadersKeys(data: map<string, Option<string>>, headers: seq<Header>)
    ensures forall key :: key in WithHeaders(data, headers) <==>
      key in data || exists j :: 0 <= j < |headers| && FieldKey(headers[j].name) == Some(key)
  {
    if headers != [] {
      var init := headers[..|headers| - 1];
      WithHeadersKeys(data, init);
      forall key ensures (exists j :: 0 <= j < |headers| && FieldKey(headers[j].name) == Some(key))
        <==> (exists j :: 0 <= j < |init| && FieldKey(init[j].name) == Some(key))
             || FieldKey(headers[|headers| - 1].name) == Some(key)
      {
        if exists j :: 0 <= j < |headers| && FieldKey(headers[j].name) == Some(key) {
          var j :| 0 <= j < |headers| && FieldKey(headers[j].name) == Some(key);
          if j < |init| {
            assert init[j] == headers[j];
          }
        }
        if exists j :: 0 <= j < |init| && FieldKey(init[j].name) == Some(key) {
          var j :| 0 <= j < |init| && FieldKey(init[j].name) == Some(key);
          assert headers[j] == init[j];
        }
      }
    }
  }

  /** The header loop. */
  method CopyHeaders(data: map<string, Option<string>>, headers: seq<Header>) returns (r: map<string, Option<string>>)
    ensures r == WithHeaders(data, headers)
  {
    r := data;
    var i := 0;
    while i < |headers|
      invariant 0 <= i <= |headers|
      invariant r == WithHeaders(data, headers[..i])
    {
      assert headers[..i + 1][..i] == headers[..i];
      var name := headers[i].name;
      var value := headers[i].value;
      if name == "Subject" {
        r := r["subject" := value];
      } else if name == "Date" {
        r := r["date" := value];
      } else if name == "From" {
        r := r["from" := value];
      }
      i := i + 1;
    }
    assert headers[..i] == headers;
  }

  /** `msg.get('snippet', '')`. */
  function SnippetText(m: Message): string
  {
    if m.snippet.Some? then m.snippet.value else ""
  }

  /** `email_data` of one message: its id and snippet, then the copied headers. */
  function EmailData(id: string, m: Message): map<string, Option<string>>
  {
    WithHeaders(map["id" := Some(id), "snippet" := Some(SnippetText(m))], MessageHeaders(m))
  }

  /** An entry always carries the message id and its snippet, and besides them at most
      the subject, date and sender. */
  lemma EmailDataFields(id: string, m: Message)
    ensures "id" in EmailData(id, m) && EmailData(id, m)["id"] == Some(id)
    ensures "snippet" in EmailData(id, m) && EmailData(id, m)["snippet"] == Some(SnippetText(m))
    ensures forall key :: key in EmailData(id, m) ==> key in {"id", "snippet", "subject", "date", "from"}
  {
    var base := map["id" := Some(id), "snippet" := Some(SnippetText(m))];
    var headers := MessageHeaders(m);
    WithHeadersUntouched(base, headers, "id");
    WithHeadersUntouched(base, headers, "snippet");
    WithHeadersKeys(base, headers);
  }

  // ---- the whole search

  /** One entry per listed id, in order, when every fetch succeeds; `None` as soon as one
      fetch raises. */
  function FetchAll(fetch: string -> Option<Message>, ids: seq<string>): Option<seq<map<string, Option<string>>>>
  {
    if ids == [] then Some([])
    else
      var earlier := FetchAll(fetch, ids[..|ids| - 1]);
      var id := ids[|ids| - 1];
      if earlier.None? || fetch(id).None? then None
      else Some(earlier.value + [EmailData(id, fetch(id).value)])
  }

  /** All or nothing: a result exactly when every fetch succeeds, and then the entries
      of the ids in order. */
  lemma {:induction false} FetchAllMeaning(fetch: string -> Option<Message>, ids: seq<string>)
    ensures FetchAll(fetch, ids).Some? <==> forall i :: 0 <= i < |ids| ==> fetch(ids[i]).Some?
    ensures FetchAll(fetch, ids).Some? ==>
      |FetchAll(fetch, ids).value| == |ids|
      && forall i :: 0 <= i < |ids| ==> FetchAll(fetch, ids).value[i] == EmailData(ids[i], fetch(ids[i]).value)
  {
    if ids != [] {
      var init := ids[..|ids| - 1];
      FetchAllMeaning(fetch, init);
      assert forall i :: 0 <= i < |init| ==> init[i] == ids[i];
    }
  }

  /** The cap passed to the list call. */
  const MaxResults := 10

  /** What `search_gmail_receipts` returns. `serviceAvailable` is whether authentication
      produced a service; `list` is the list call (`None` when it raises), `fetch` the get
      call (`None` when it raises). */
  function SearchReceipts(serviceAvailable: bool, list: (string, int) -> Option<seq<string>>,
                          fetch: string -> Option<Message>, dateText: string, amountText: string,
                          merchant: Option<string>, w: int): seq<map<string, Option<string>>>
  {
    if !serviceAvailable then [] else ListedReceipts(list, fetch, ReceiptQuery(dateText, amountText, merchant, w))
  }

  /** The list call and the fetches, once the query is built (`None` when building it
      raised). */
  function ListedReceipts(list: (string, int) -> Option<seq<string>>, fetch: string -> Option<Message>,
                          query: Option<string>): seq<map<string, Option<string>>>
  {
    match query
    case None => []
    case Some(q) =>
      match list(q, MaxResults)
      case None => []
      case Some(ids) =>
        match FetchAll(fetch, ids)
        case None => []
        case Some(emails) => emails
  }

  /** The result is empty, or holds one entry per listed id, in the listed order, each
      with that id. */
  lemma SearchReceiptsShape(serviceAvailable: bool, list: (string, int) -> Option<seq<string>>,
                            fetch: string -> Option<Message>, dateText: string, amountText: string,
                            merchant: Option<string>, w: int)
    ensures var r := SearchReceipts(serviceAvailable, list, fetch, dateText, amountText, merchant, w);
      r != [] ==>
        serviceAvailable && ReceiptQuery(dateText, amountText, merchant, w).Some?
        && var ids := list(ReceiptQuery(dateText, amountText, merchant, w).value, MaxResults);
        ids.Some? && |r| == |ids.value|
        && forall i :: 0 <= i < |r| ==> "id" in r[i] && r[i]["id"] == Some(ids.value[i])
  {
    var r := SearchReceipts(serviceAvailable, list, fetch, dateText, amountText, merchant, w);
    if r != [] {
      var q := ReceiptQuery(dateText, amountText, merchant, w).value;
      var ids := list(q, MaxResults).value;
      FetchAllMeaning(fetch, ids);
      forall i | 0 <= i < |r| ensures "id" in r[i] && r[i]["id"] == Some(ids[i]) {
        EmailDataFields(ids[i], fetch(ids[i]).value);
      }
    }
  }

  /** A failed fetch of any listed message empties the whole result. */
  lemma SearchReceiptsFetchFailure(serviceAvailable: bool, list: (string, int) -> Option<seq<string>>,
                                   fetch: string -> Option<Message>, dateText: string, amountText: string,
                                   merchant: Option<string>, w: int, i: int)
    requires serviceAvailable && ReceiptQuery(dateText, amountText, merchant, w).Some?
    requires var ids := list(ReceiptQuery(dateText, amountText, merchant, w).value, MaxResults);
      ids.Some? && 0 <= i < |ids.value| && fetch(ids.value[i]).None?
    ensures SearchReceipts(serviceAvailable, list, fetch, dateText, amountText, merchant, w) == []
  {
    FetchAllMeaning(fetch, list(ReceiptQuery(dateText, amountText, merchant, w).value, MaxResults).value);
  }

  /** The tool: query, list call, then one get call per listed id, stopping with an empty
      result at the first failure. */
  method SearchGmailReceipts(serviceAvailable: bool, list: (string, int) -> Option<seq<string>>,
                             fetch: string -> Option<Message>, dateText: string, amountText: string,
                             merchant: Option<string>, w: int)
    returns (emails: seq<map<string, Option<string>>>)
    ensures emails == SearchReceipts(serviceAvailable, list, fetch, dateText, amountText, merchant, w)
  {
    emails := [];
    if !serviceAvailable {
      return;
    }
    var query := BuildReceiptQuery(dateText, amountText, merchant, w);
    emails := ListAndFetch(list, fetch, query);
  }

  /** From the list call on. */
  method ListAndFetch(list: (string, int) -> Option<seq<string>>, fetch: string -> Option<Message>,
                      query: Option<string>)
    returns (emails: seq<map<string, Option<string>>>)
    ensures emails == ListedReceipts(list, fetch, query)
  {
    emails := [];
    if query.None? {
      return;
    }
    var results := list(query.value, MaxResults);
    if results.None? || results.value == [] {
      return;
    }
    emails := FetchEntries(fetch, results.value);
  }

  /** The loop over the listed messages; an exception in any get call leaves the
      function with an empty list. */
  method FetchEntries(fetch: string -> Option<Message>, ids: seq<string>)
    returns (emails: seq<map<string, Option<string>>>)
    ensures emails == (if FetchAll(fetch, ids).Some? then FetchAll(fetch, ids).value else [])
  {
    emails := [];
    var i := 0;
    while i < |ids|
      invariant 0 <= i <= |ids|
      invariant FetchAll(fetch, ids[..i]) == Some(emails)
    {
      assert ids[..i + 1][..i] == ids[..i];
      var msg := fetch(ids[i]);
      if msg.None? {
        FetchAllFailed(fetch, ids, i + 1);
        return [];
      }
      var base := map["id" := Some(ids[i]), "snippet" := Some(SnippetText(msg.value))];
      var data := CopyHeaders(base, MessageHeaders(msg.value));
      emails := emails + [data];
      i := i + 1;
    }
    assert ids[..i] == ids;
  }

  /** Once a prefix fails, the whole list fails. */
  lemma {:induction false} FetchAllFailed(fetch: string -> Option<Message>, ids: seq<string>, k: int)
    requires 0 <= k <= |ids| && FetchAll(fetch, ids[..k]).None?
    ensures FetchAll(fetch, ids).None?
    decreases |ids| - k
  {
    if k < |ids| {
      assert ids[..k + 1][..k] == ids[..k];
      FetchAllFailed(fetch, ids, k + 1);
    } else {
      assert ids[..k] == ids;
    }
  }
}
