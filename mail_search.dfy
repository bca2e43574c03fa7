/** What the two `search_gmail_for_transactions` tools (gmail_agent/tools.py and
    transaction_categorizer/tools.py) and `query_gmail_emails_structured` share: the mail
    service is a search returning message ids and a fetch per id whose outcome is `None` on
    failure; failed fetches are skipped in reference order; a cap on successful fetches;
    the subject lookup; the sentinel strings and the summary header. */
module MailSearch {
  import opened Common
  import opened MimeTree

  // ---- fetch outcomes

  /** The successful outcomes, in order. */
  function Successes<T>(outs: seq<Option<T>>): (r: seq<T>)
    ensures |r| <= |outs|
  {
    if outs == [] then []
    else
      var earlier := Successes(outs[..|outs| - 1]);
      if outs[|outs| - 1].Some? then earlier + [outs[|outs| - 1].value] else earlier
  }

  /** One fetch per reference, in reference order. */
  function Outcomes<T>(fetch: string -> Option<T>, refs: seq<string>): (r: seq<Option<T>>)
    ensures |r| == |refs|
    ensures forall i :: 0 <= i < |refs| ==> r[i] == fetch(refs[i])
  {
    seq(|refs|, i requires 0 <= i < |refs| => fetch(refs[i]))
  }

  /** The first `cap` elements, none when `cap` is not positive (Python's `s[:max(cap, 0)]`). */
  function Take<T>(s: seq<T>, cap: int): (r: seq<T>)
    ensures |r| == (if cap <= 0 then 0 else if cap < |s| then cap else |s|)
    ensures r == s[..|r|]
  {
    if cap <= 0 then [] else if cap < |s| then s[..cap] else s
  }

  /** `[f(x) for x in s]`. */
  function MapSeq<T, U>(f: T -> U, s: seq<T>): (r: seq<U>)
    ensures |r| == |s|
    ensures forall i :: 0 <= i < |s| ==> r[i] == f(s[i])
  {
    if s == [] then [] else MapSeq(f, s[..|s| - 1]) + [f(s[|s| - 1])]
  }

  lemma MapSeqStep<T, U>(f: T -> U, s: seq<T>, x: T)
    ensures MapSeq(f, s + [x]) == MapSeq(f, s) + [f(x)]
  {
    assert (s + [x])[..|s|] == s;
  }

  lemma SuccessesStep<T>(outs: seq<Option<T>>, i: int)
    requires 0 <= i < |outs|
    ensures outs[i].None? ==> Successes(outs[..i + 1]) == Successes(outs[..i])
    ensures outs[i].Some? ==> Successes(outs[..i + 1]) == Successes(outs[..i]) + [outs[i].value]
  {
    assert outs[..i + 1][..i] == outs[..i];
  }

  /** One more outcome of a fetch loop: the rendered successes grow by the rendering of
      that outcome when it succeeded, and stay the same otherwise. */
  lemma RenderedStep<T, U>(f: T -> U, outs: seq<Option<T>>, i: int)
    requires 0 <= i < |outs|
    ensures |Successes(outs[..i + 1])| == |Successes(outs[..i])| + (if outs[i].Some? then 1 else 0)
    ensures outs[i].None? ==> MapSeq(f, Successes(outs[..i + 1])) == MapSeq(f, Successes(outs[..i]))
    ensures outs[i].Some? ==>
      MapSeq(f, Successes(outs[..i + 1])) == MapSeq(f, Successes(outs[..i])) + [f(outs[i].value)]
  {
    SuccessesStep(outs, i);
    if outs[i].Some? {
      MapSeqStep(f, Successes(outs[..i]), outs[i].value);
    }
  }

  /** Concatenated outcome lists give concatenated successes: nothing is dropped, nothing
      is reordered. */
  lemma {:induction false} SuccessesAppend<T>(a: seq<Option<T>>, b: seq<Option<T>>)
    ensures Successes(a + b) == Successes(a) + Successes(b)
    decreases |b|
  {
    if b == [] {
      assert a + b == a;
    } else {
      var b' := b[..|b| - 1];
      assert (a + b)[..|a + b| - 1] == a + b';
      SuccessesAppend(a, b');
    }
  }

  /** Every fetch succeeded: one result per reference, in reference order. */
  lemma {:induction false} SuccessesAllSome<T>(outs: seq<Option<T>>)
    requires forall i :: 0 <= i < |outs| ==> outs[i].Some?
    ensures |Successes(outs)| == |outs|
    ensures forall i :: 0 <= i < |outs| ==> Successes(outs)[i] == outs[i].value
  {
    if outs != [] {
      SuccessesAllSome(outs[..|outs| - 1]);
    }
  }

  /** No result at all exactly when every fetch failed. */
  lemma {:induction false} SuccessesEmpty<T>(outs: seq<Option<T>>)
    ensures Successes(outs) == [] <==> forall i :: 0 <= i < |outs| ==> outs[i].None?
  {
    if outs != [] {
      SuccessesEmpty(outs[..|outs| - 1]);
    }
  }

  /** The successes of a prefix of the outcomes are a prefix of all successes. */
  lemma {:induction false} SuccessesPrefix<T>(outs: seq<Option<T>>, i: int)
    requires 0 <= i <= |outs|
    ensures |Successes(outs[..i])| <= |Successes(outs)|
    ensures Successes(outs[..i]) == Successes(outs)[..|Successes(outs[..i])|]
  {
    assert outs == outs[..i] + outs[i..];
    SuccessesAppend(outs[..i], outs[i..]);
  }

  /** The capped loop stops at `i` either at the end or once `cap` successes were
      counted; either way it has collected exactly the first `cap` successes. */
  lemma CapReached<T>(outs: seq<Option<T>>, i: int, cap: int)
    requires 0 <= i <= |outs|
    requires |Successes(outs[..i])| <= (if cap <= 0 then 0 else cap)
    requires i == |outs| || |Successes(outs[..i])| >= cap
    ensures Successes(outs[..i]) == Take(Successes(outs), cap)
  {
    SuccessesPrefix(outs, i);
    if cap <= 0 {
      assert Successes(outs[..i]) == [];
    } else if i == |outs| {
      assert outs[..i] == outs;
    }
  }

  /** A capped fetch loop that stopped at `i` has rendered exactly the first `cap`
      successes, and it stopped early only once the cap was reached. */
  lemma CappedLoopDone<T, U>(f: T -> U, outs: seq<Option<T>>, i: int, cap: int, lines: seq<U>)
    requires 0 <= i <= |outs|
    requires |Successes(outs[..i])| <= (if cap <= 0 then 0 else cap)
    requires i == |outs| || |Successes(outs[..i])| >= cap
    requires lines == MapSeq(f, Successes(outs[..i]))
    ensures Successes(outs[..i]) == Take(Successes(outs), cap)
    ensures lines == MapSeq(f, Take(Successes(outs), cap))
    ensures i < |outs| ==> |lines| >= cap
  {
    CapReached(outs, i, cap);
  }

  /** The number of successful fetches a cap of `cap` allows: `min(max(cap, 0), successes)`. */
  lemma TakeSuccessesEmpty<T>(outs: seq<Option<T>>, cap: int)
    ensures Take(Successes(outs), cap) == [] <==> cap <= 0 || forall i :: 0 <= i < |outs| ==> outs[i].None?
  {
    SuccessesEmpty(outs);
  }

  // ---- the subject lookup both tools share

  const NoSubjectHeader := "(No Subject Header)"
  const EmptySubject := "(Empty Subject)"

  predicate IsSubjectHeader(h: Header)
  {
    LowerAscii(h.name) == "subject"
  }

  /** `header.get('value', '(Empty Subject)')`. */
  function SubjectValue(h: Header): string
  {
    if h.value.Some? then h.value.value else EmptySubject
  }

  /** The subject a tool reports for a header list. */
  function FirstSubject(headers: seq<Header>): string
  {
    if headers == [] then NoSubjectHeader
    else if IsSubjectHeader(headers[0]) then SubjectValue(headers[0])
    else FirstSubject(headers[1..])
  }

  /** The first header named `subject` in any letter case decides the subject. */
  lemma {:induction false} FirstSubjectAt(headers: seq<Header>, j: int)
    requires 0 <= j < |headers| && IsSubjectHeader(headers[j])
    requires forall k :: 0 <= k < j ==> !IsSubjectHeader(headers[k])
    ensures FirstSubject(headers) == SubjectValue(headers[j])
  {
    if j > 0 {
      FirstSubjectAt(headers[1..], j - 1);
    }
  }

  /** Without such a header the subject is the fixed default. */
  lemma {:induction false} FirstSubjectAbsent(headers: seq<Header>)
    requires forall k :: 0 <= k < |headers| ==> !IsSubjectHeader(headers[k])
    ensures FirstSubject(headers) == NoSubjectHeader
  {
    if headers != [] {
      FirstSubjectAbsent(headers[1..]);
    }
  }

  /** The header loop with its `break`. */
  method SubjectOf(headers: seq<Header>) returns (subject: string)
    ensures subject == FirstSubject(headers)
  {
    subject := NoSubjectHeader;
    var i := 0;
    while i < |headers|
      invariant 0 <= i <= |headers|
      invariant subject == NoSubjectHeader
      invariant FirstSubject(headers) == FirstSubject(headers[i..])
    {
      if LowerAscii(headers[i].name) == "subject" {
        subject := SubjectValue(headers[i]);
        break;
      }
      assert headers[i..][1..] == headers[i + 1..];
      i := i + 1;
    }
  }

  /** The headers of a fetched message: `message.get('payload', {}).get('headers', [])`. */
  function MessageHeaders(m: Message): seq<Header>
  {
    if m.payload.Some? then m.payload.value.headers else []
  }

  // ---- result strings

  const NoEmailsFound := "No emails found matching the query."
  const CouldNotRetrieve := "Found email references, " + "but could not retrieve details. Check logs."

  function ServiceInitError(details: string): (r: string)
    ensures StartsWith(r, "Error: Could not initialize Gmail service.")
    ensures |r| > |details| && r[|r| - |details|..] == details
  {
    "Error: Could not initialize Gmail service. Check logs. Details: " + details
  }

  /** `f"Found {len(lines)} emails (out of {refCount} matching references):\n" + "\n".join(lines)`. */
  function SummaryHeader(entries: nat, refCount: nat): string
  {
    "Found " + NatToString(entries) + " emails (out of " + NatToString(refCount) + " matching references):"
  }

  function SummaryText(lines: seq<string>, refCount: nat): (r: string)
  {
    SummaryHeader(|lines|, refCount) + "\n" + Join(lines, "\n")
  }

  /** The numbers in the header line read back as the entry count and the reference count. */
  lemma SummaryHeaderCounts(entries: nat, refCount: nat)
    ensures SummaryHeader(entries, refCount)
      == "Found " + NatToString(entries) + " emails (out of " + NatToString(refCount) + " matching references):"
    ensures DigitsValue(NatToString(entries)) == entries
    ensures DigitsValue(NatToString(refCount)) == refCount
  {
    NatToStringValue(entries);
    NatToStringValue(refCount);
  }

  /** The seventh character of a summary is the first digit of the entry count. */
  lemma SummarySeventhIsDigit(lines: seq<string>, refCount: nat)
    ensures |SummaryText(lines, refCount)| > 6 && IsDigit(SummaryText(lines, refCount)[6])
  {
    var n := NatToString(|lines|);
    var h := SummaryHeader(|lines|, refCount);
    assert h == "Found " + (n + (" emails (out of " + NatToString(refCount) + " matching references):"));
    assert h[6] == n[0];
    assert SummaryText(lines, refCount) == h + ("\n" + Join(lines, "\n"));
  }

  /** A summary is never mistaken for either sentinel: its seventh character is a digit. */
  lemma SummaryIsNotSentinel(lines: seq<string>, refCount: nat)
    ensures SummaryText(lines, refCount) != NoEmailsFound
    ensures SummaryText(lines, refCount) != CouldNotRetrieve
  {
    SummarySeventhIsDigit(lines, refCount);
    assert NoEmailsFound[6] == 'i';
    assert CouldNotRetrieve[6] == 'e';
  }

  // ---- what a search tool returns

  /** The message ids a search yields; a failed search yields none. */
  function Refs(search: string -> Option<seq<string>>, query: string): seq<string>
  {
    if search(query).Some? then search(query).value else []
  }

  /** The report of a search tool, given the service start-up error if any, the message ids
      found, the fetch outcome of each and the cap `max_results`; `entry` renders one
      fetched message. */
  function SearchReport<M>(entry: M -> string, initError: Option<string>, refs: seq<string>,
                           outs: seq<Option<M>>, cap: int): string
  {
    if initError.Some? then ServiceInitError(initError.value)
    else if refs == [] then NoEmailsFound
    else
      var got := Take(Successes(outs), cap);
      if got == [] then CouldNotRetrieve else SummaryText(MapSeq(entry, got), |refs|)
  }

  /** "No emails found" is reported exactly when the search yields no ids. */
  lemma ReportNoEmails<M>(entry: M -> string, refs: seq<string>, outs: seq<Option<M>>, cap: int)
    ensures SearchReport(entry, None, refs, outs, cap) == NoEmailsFound <==> refs == []
  {
    var got := Take(Successes(outs), cap);
    if refs != [] {
      assert NoEmailsFound[0] == 'N' && CouldNotRetrieve[0] == 'F';
      if got != [] {
        SummaryIsNotSentinel(MapSeq(entry, got), |refs|);
      }
    }
  }

  /** "Could not retrieve details" is reported exactly when ids were found but the cap
      allows no fetch or every fetch failed. */
  lemma ReportCouldNotRetrieve<M>(entry: M -> string, refs: seq<string>, outs: seq<Option<M>>, cap: int)
    ensures SearchReport(entry, None, refs, outs, cap) == CouldNotRetrieve
        <==> refs != [] && (cap <= 0 || forall i :: 0 <= i < |outs| ==> outs[i].None?)
  {
    var got := Take(Successes(outs), cap);
    TakeSuccessesEmpty(outs, cap);
    if refs == [] {
      assert NoEmailsFound[0] == 'N' && CouldNotRetrieve[0] == 'F';
    } else if got != [] {
      SummaryIsNotSentinel(MapSeq(entry, got), |refs|);
    }
  }

  /** Otherwise the report is the summary of one entry per successful fetch, in reference
      order, at most `cap` of them. */
  lemma ReportSummary<M>(entry: M -> string, refs: seq<string>, outs: seq<Option<M>>, cap: int)
    requires refs != [] && 0 < cap
    requires exists i :: 0 <= i < |outs| && outs[i].Some?
    ensures exists lines: seq<string> ::
      SearchReport(entry, None, refs, outs, cap) == SummaryText(lines, |refs|)
      && |lines| == (if cap < |Successes(outs)| then cap else |Successes(outs)|)
      && 0 < |lines| <= cap
      && forall k :: 0 <= k < |lines| ==> lines[k] == entry(Successes(outs)[k])
  {
    TakeSuccessesEmpty(outs, cap);
    var lines := MapSeq(entry, Take(Successes(outs), cap));
    assert SearchReport(entry, None, refs, outs, cap) == SummaryText(lines, |refs|);
  }

  // ---- the fetch loop of both tools

  /** One turn of the fetch loop: get message `i`; on success count it and add its
      entry. */
  method FetchNext<M>(render: M -> string, fetch: string -> Option<M>, refs: seq<string>, i: nat,
                      lines: seq<string>, count: nat)
    returns (lines': seq<string>, count': nat)
    requires i < |refs|
    requires count == |Successes(Outcomes(fetch, refs)[..i])|
    requires lines == MapSeq(render, Successes(Outcomes(fetch, refs)[..i]))
    ensures count' == |Successes(Outcomes(fetch, refs)[..i + 1])| <= count + 1
    ensures lines' == MapSeq(render, Successes(Outcomes(fetch, refs)[..i + 1]))
  {
    var detail := fetch(refs[i]);
    RenderedStep(render, Outcomes(fetch, refs), i);
    lines', count' := lines, count;
    if detail.Some? {
      count' := count + 1;
      lines' := lines + [render(detail.value)];
    }
  }

  /** The fetch loop: stop once `cap` messages were fetched, skip failed fetches, one
      entry per fetched message, rendered by `render`. `fetches` is the number of get
      calls made. */
  method CollectEntries<M>(render: M -> string, fetch: string -> Option<M>, refs: seq<string>, cap: int)
    returns (lines: seq<string>, fetches: nat)
    ensures lines == MapSeq(render, Take(Successes(Outcomes(fetch, refs)), cap))
    ensures fetches <= |refs|
    ensures Successes(Outcomes(fetch, refs)[..fetches]) == Take(Successes(Outcomes(fetch, refs)), cap)
    ensures fetches < |refs| ==> |lines| >= cap
    ensures fetches > 0 ==> |Successes(Outcomes(fetch, refs)[..fetches - 1])| < cap
  {
    ghost var outs := Outcomes(fetch, refs);
    lines := [];
    var count := 0;
    var i := 0;
    while i < |refs|
      invariant 0 <= i <= |refs|
      invariant count == |Successes(outs[..i])|
      invariant count <= (if cap <= 0 then 0 else cap)
      invariant lines == MapSeq(render, Successes(outs[..i]))
      invariant i > 0 ==> |Successes(outs[..i - 1])| < cap
    {
      if count >= cap {
        break;
      }
      lines, count := FetchNext(render, fetch, refs, i, lines, count);
      i := i + 1;
    }
    CappedLoopDone(render, outs, i, cap, lines);
    fetches := i;
  }

  /** A search tool: set up the service, search, fetch and render up to `cap` messages,
      and report. `initError` is the exception text when the service cannot be set up;
      `search` and `fetch` stand for the list and get calls, `None` for a failed call. */
  method RunSearch<M>(render: M -> string, initError: Option<string>, search: string -> Option<seq<string>>,
                      fetch: string -> Option<M>, query: string, cap: int)
    returns (r: string, fetches: nat)
    ensures r == SearchReport(render, initError, Refs(search, query), Outcomes(fetch, Refs(search, query)), cap)
    ensures fetches <= |Refs(search, query)|
    ensures initError.Some? ==> fetches == 0
    ensures initError.None? ==>
      var outs := Outcomes(fetch, Refs(search, query));
      var got := Take(Successes(outs), cap);
      Successes(outs[..fetches]) == got && (fetches < |outs| ==> |got| >= cap)
      && (fetches > 0 ==> |Successes(outs[..fetches - 1])| < cap)
  {
    if initError.Some? {
      return ServiceInitError(initError.value), 0;
    }
    var refs := if search(query).Some? then search(query).value else [];
    if refs == [] {
      return NoEmailsFound, 0;
    }
    var lines;
    lines, fetches := CollectEntries(render, fetch, refs, cap);
    if lines == [] {
      return CouldNotRetrieve, fetches;
    }
    r := SummaryText(lines, |refs|);
  }
}
