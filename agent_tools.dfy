/** gmail_agent/tools.py: `_extract_body_from_payload`, which prefers plain text, stops at
    the first text/plain part and cleans HTML with two regular expressions, and
    `search_gmail_for_transactions`, which reports subject and truncated body of at most
    `max_results` fetched messages. */
module AgentTools {
  import opened Common
  import opened MimeTree
  import opened TextNormalize
  import opened MailSearch

  // ---- `re.sub('<[^>]+>', '', s)`

  predicate NoGt(s: string)
  {
    forall k :: 0 <= k < |s| ==> s[k] != '>'
  }

  /** No match of `<[^>]+>` is left: every `<` is directly followed by `>`, or by no `>`
      at all. */
  predicate NoTags(s: string)
  {
    forall i :: 0 <= i < |s| && s[i] == '<' ==> (i + 1 < |s| && s[i + 1] == '>') || NoGt(s[i + 1..])
  }

  /** The position of the first `>` of `s`, or `|s|`. */
  function FirstGt(s: string): (k: nat)
    ensures k <= |s| && NoGt(s[..k])
    ensures k < |s| ==> s[k] == '>'
  {
    if s == [] then 0
    else if s[0] == '>' then 0
    else
      var k := FirstGt(s[1..]);
      assert s[..k + 1] == [s[0]] + s[1..][..k];
      k + 1
  }

  lemma ConsNoTags(c: char, r: string)
    requires NoTags(r)
    requires c == '<' ==> (r != [] && r[0] == '>') || NoGt(r)
    ensures NoTags([c] + r)
  {
    var s := [c] + r;
    forall i | 0 <= i < |s| && s[i] == '<'
      ensures (i + 1 < |s| && s[i + 1] == '>') || NoGt(s[i + 1..])
    {
      if i > 0 {
        assert s[i + 1..] == r[i..];
        assert r[i - 1] == '<';
      } else {
        assert s[1..] == r;
      }
    }
  }

  lemma SuffixNoTags(s: string, m: int)
    requires 0 <= m <= |s| && NoTags(s)
    ensures NoTags(s[m..])
  {
    var t := s[m..];
    forall i | 0 <= i < |t| && t[i] == '<'
      ensures (i + 1 < |t| && t[i + 1] == '>') || NoGt(t[i + 1..])
    {
      assert s[m + i] == '<';
      assert t[i + 1..] == s[m + i + 1..];
    }
  }

  /** The tag remover, left to right like the regular-expression engine. */
  function StripTags(s: string): (r: string)
    ensures NoTags(r)
    ensures NoGt(s) ==> NoGt(r)
    ensures s != [] && s[0] != '<' ==> r != [] && r[0] == s[0]
    ensures |r| <= |s|
    decreases |s|
  {
    if s == [] then []
    else
      var k := FirstGt(s[1..]);
      if s[0] == '<' && 0 < k < |s| - 1 then
        StripTags(s[k + 2..])
      else
        var rest := StripTags(s[1..]);
        assert s[0] == '<' && !NoGt(s[1..]) ==> s[1] == '>';
        ConsNoTags(s[0], rest);
        assert ([s[0]] + rest)[1..] == rest;
        [s[0]] + rest
  }

  lemma FirstGtAt(s: string, k: nat)
    requires k < |s| && s[k] == '>' && NoGt(s[..k])
    ensures FirstGt(s) == k
  {
  }

  lemma NoGtFirstGt(s: string)
    requires NoGt(s)
    ensures FirstGt(s) == |s|
  {
  }

  /** A text with no tag left in it comes through unchanged: the removal is idempotent. */
  lemma {:induction false} StripTagsKeepsTagFree(s: string)
    requires NoTags(s)
    ensures StripTags(s) == s
    decreases |s|
  {
    if s != [] {
      if s[0] == '<' {
        assert (1 < |s| && s[1] == '>') || NoGt(s[1..]);
        if !(1 < |s| && s[1] == '>') {
          NoGtFirstGt(s[1..]);
        }
      }
      SuffixNoTags(s, 1);
      StripTagsKeepsTagFree(s[1..]);
    }
  }

  /** A tag, `<` then one or more characters other than `>` then `>`, is removed. */
  lemma StripTagsDropsTag(t: string, v: string)
    requires t != [] && '>' !in t
    ensures StripTags("<" + t + ">" + v) == StripTags(v)
  {
    var s := "<" + t + ">" + v;
    assert s[1..] == t + ">" + v;
    assert s[1..][..|t|] == t;
    FirstGtAt(s[1..], |t|);
    assert s[|t| + 2..] == v;
  }

  /** Text before the next `<` is kept as it is. */
  lemma {:induction false} StripTagsKeepsText(u: string, v: string)
    requires '<' !in u
    ensures StripTags(u + v) == u + StripTags(v)
    decreases |u|
  {
    if u != [] {
      var s := u + v;
      assert s[0] == u[0] && s[0] != '<';
      assert s[1..] == u[1..] + v;
      StripTagsLeadingOther(s);
      StripTagsKeepsText(u[1..], v);
      calc {
        StripTags(s);
        [u[0]] + StripTags(u[1..] + v);
        [u[0]] + (u[1..] + StripTags(v));
        { assert u == [u[0]] + u[1..]; }
        u + StripTags(v);
      }
    } else {
      assert u + v == v;
    }
  }

  lemma StripTagsLeadingLt(s: string)
    requires s != [] && s[0] == '<'
    requires |s| == 1 || s[1] == '>'
    ensures StripTags(s) == [s[0]] + StripTags(s[1..])
  {
  }

  lemma StripTagsLeadingOther(s: string)
    requires s != [] && s[0] != '<'
    ensures StripTags(s) == [s[0]] + StripTags(s[1..])
  {
  }

  /** `<>` is not a tag: the pattern needs at least one character between the brackets. */
  lemma StripTagsKeepsEmptyBrackets(s: string)
    requires |s| >= 2 && s[0] == '<' && s[1] == '>'
    ensures StripTags(s) == [s[0], s[1]] + StripTags(s[2..])
  {
    StripTagsLeadingLt(s);
    StripTagsLeadingOther(s[1..]);
    assert s[1..][1..] == s[2..];
  }

  // ---- `re.sub(r'\s+', ' ', s).strip()`

  function DropSpace(s: string): (r: string)
    ensures |r| <= |s| && r == s[|s| - |r|..]
    ensures r == [] || !IsPySpace(r[0])
    ensures Visible(r) == Visible(s)
  {
    if s != [] && IsPySpace(s[0]) then DropSpace(s[1..]) else s
  }

  /** Only `' '` stands for whitespace, never twice in a row. */
  predicate SingleSpaced(s: string)
  {
    (forall i :: 0 <= i < |s| && IsPySpace(s[i]) ==> s[i] == ' ') && NoDoubleSpace(s)
  }

  /** Every maximal whitespace run becomes one space. */
  function CollapseSpace(s: string): (r: string)
    ensures SingleSpaced(r)
    ensures (r != [] && r[0] == ' ') <==> (s != [] && IsPySpace(s[0]))
    ensures s != [] && !IsPySpace(s[0]) ==> r != [] && r[0] == s[0]
    ensures Visible(r) == Visible(s)
    ensures NoGt(s) ==> NoGt(r)
    ensures NoTags(s) ==> NoTags(r)
    decreases |s|
  {
    if s == [] then []
    else if IsPySpace(s[0]) then
      var d := DropSpace(s);
      var rest := CollapseSpace(d);
      NoDoubleSpaceCons(' ', rest);
      assert NoTags(s) ==> NoTags([' '] + rest) by {
        if NoTags(s) {
          SuffixNoTags(s, |s| - |d|);
          ConsNoTags(' ', rest);
        }
      }
      assert NoGt(s) ==> NoGt(d) by {
        if NoGt(s) {
          forall k | 0 <= k < |d| ensures d[k] != '>' { assert d[k] == s[|s| - |d| + k]; }
        }
      }
      assert ([' '] + rest)[1..] == rest;
      [' '] + rest
    else
      var rest := CollapseSpace(s[1..]);
      NoDoubleSpaceCons(s[0], rest);
      assert NoTags(s) ==> NoTags([s[0]] + rest) by {
        if NoTags(s) {
          SuffixNoTags(s, 1);
          ConsNoTags(s[0], rest);
        }
      }
      assert NoGt(s) ==> NoGt(s[1..]) by {
        if NoGt(s) {
          forall k | 0 <= k < |s| - 1 ensures s[1..][k] != '>' { assert s[1..][k] == s[k + 1]; }
        }
      }
      assert ([s[0]] + rest)[1..] == rest;
      [s[0]] + rest
  }

  lemma {:induction false} SqueezeSpaceRun(s: string)
    ensures Squeeze(s, IsPySpace, true) == Squeeze(DropSpace(s), IsPySpace, true)
    decreases |s|
  {
    if s != [] && IsPySpace(s[0]) {
      SqueezeSpaceRun(s[1..]);
    }
  }

  /** The collapse agrees with the character-by-character rule: a whitespace character
      that follows another is dropped, one that starts a run becomes `' '`, and every other
      character is kept. */
  lemma {:induction false} CollapseSpaceSqueezes(s: string)
    ensures CollapseSpace(s) == Squeeze(s, IsPySpace, false)
    decreases |s|
  {
    if s != [] {
      if IsPySpace(s[0]) {
        var d := DropSpace(s);
        assert d == DropSpace(s[1..]);
        SqueezeSpaceRun(s[1..]);
        SqueezeFresh(d, IsPySpace);
        CollapseSpaceSqueezes(d);
      } else {
        CollapseSpaceSqueezes(s[1..]);
      }
    }
  }

  lemma SpaceTail(s: string, j: int)
    requires 0 <= j <= |s| && AllSpace(s[j..])
    ensures forall k :: j <= k < |s| ==> IsPySpace(s[k])
  {
    forall k | j <= k < |s| ensures IsPySpace(s[k]) {
      assert s[k] == s[j..][k - j];
    }
  }

  lemma StripNoTags(s: string)
    requires NoTags(s)
    ensures NoTags(Strip(s))
  {
    var i, j :| 0 <= i <= j <= |s| && Strip(s) == s[i..j] && AllSpace(s[..i]) && AllSpace(s[j..]);
    var t := s[i..j];
    forall p | 0 <= p < |t| && t[p] == '<'
      ensures (p + 1 < |t| && t[p + 1] == '>') || NoGt(t[p + 1..])
    {
      assert s[i + p] == '<';
      if i + p + 1 < |s| && s[i + p + 1] == '>' {
        SpaceTail(s, j);
        assert i + p + 1 < j;
        assert t[p + 1] == s[i + p + 1];
      } else {
        var u := t[p + 1..];
        var w := s[i + p + 1..];
        assert NoGt(w);
        forall k | 0 <= k < |u| ensures u[k] != '>' {
          assert u[k] == w[k];
        }
      }
    }
  }

  lemma StripSingleSpaced(s: string)
    requires SingleSpaced(s)
    ensures SingleSpaced(Strip(s))
  {
    var i, j :| 0 <= i <= j <= |s| && Strip(s) == s[i..j] && AllSpace(s[..i]) && AllSpace(s[j..]);
    NoDoubleSpaceSlice(s, i, j);
    var t := s[i..j];
    forall p | 0 <= p < |t| && IsPySpace(t[p]) ensures t[p] == ' ' {
      assert t[p] == s[i + p];
    }
  }

  /** The HTML clean-up: no tag is left, whitespace is single spaces, nothing at either
      end, and every other character survives in order. */
  function CleanHtml(text: string): (r: string)
    ensures r == Strip(Squeeze(StripTags(text), IsPySpace, false))
    ensures NoTags(r) && SingleSpaced(r) && Trimmed(r)
    ensures Visible(r) == Visible(StripTags(text))
  {
    var collapsed := CollapseSpace(StripTags(text));
    CollapseSpaceSqueezes(StripTags(text));
    StripNoTags(collapsed);
    StripSingleSpaced(collapsed);
    StripVisible(collapsed);
    Strip(collapsed)
  }

  // ---- `_extract_body_from_payload`

  const CouldNotExtract := "(Could not extract body)"
  const DecodeError := "(Error decoding body)"

  /** Decoding the chosen part; `decode` is base64url followed by strict UTF-8 decoding,
      `None` when either raises. */
  function DecodeBody(decode: string -> Option<string>, part: Part): (r: string)
    requires part.data.Some?
    ensures decode(part.data.value).None? ==> r == DecodeError
    ensures decode(part.data.value).Some? && part.mimeType != "text/html" ==> r == decode(part.data.value).value
    ensures decode(part.data.value).Some? && part.mimeType == "text/html"
      ==> r == CleanHtml(decode(part.data.value).value)
    ensures decode(part.data.value).Some? && part.mimeType == "text/html"
      ==> NoTags(r) && SingleSpaced(r) && Trimmed(r) && Visible(r) == Visible(StripTags(decode(part.data.value).value))
  {
    match decode(part.data.value)
    case None => DecodeError
    case Some(text) => if part.mimeType == "text/html" then CleanHtml(text) else text
  }

  /** Where the scan over sibling parts ends: a nested body returned at once, or the part
      to decode (plain if one was met, else the last HTML part), if any. */
  datatype Scan = Returned(body: string) | Target(part: Option<Part>)

  /** A sibling that ends the scan: a text/plain part, or a multipart whose own body was
      found. */
  predicate Stops(decode: string -> Option<string>, p: Part)
    decreases Size(p), 1, 0
  {
    p.mimeType == "text/plain"
    || (p.mimeType != "text/html" && StartsWith(p.mimeType, "multipart/")
        && BodyFromPayload(decode, p) != CouldNotExtract)
  }

  /** The loop over `parts[i..]`, `html` being the last HTML part met so far. */
  function ScanFrom(decode: string -> Option<string>, parts: seq<Part>, i: nat, html: Option<Part>): Scan
    requires i <= |parts|
    decreases SizeOf(parts), 2, |parts| - i
  {
    if i == |parts| then Target(html)
    else
      var p := parts[i];
      if p.mimeType == "text/plain" then Target(Some(p))
      else if p.mimeType == "text/html" then ScanFrom(decode, parts, i + 1, Some(p))
      else if StartsWith(p.mimeType, "multipart/") then
        SizeOfElement(parts, i);
        var nested := BodyFromPayload(decode, p);
        if nested != CouldNotExtract then Returned(nested) else ScanFrom(decode, parts, i + 1, html)
      else ScanFrom(decode, parts, i + 1, html)
  }

  /** What `_extract_body_from_payload(payload)` returns. */
  function BodyFromPayload(decode: string -> Option<string>, payload: Part): string
    decreases Size(payload), 0, 0
  {
    if payload.children.Parts? then
      match ScanFrom(decode, payload.children.list, 0, None)
      case Returned(body) => body
      case Target(t) => if t.Some? && t.value.data.Some? then DecodeBody(decode, t.value) else CouldNotExtract
    else if payload.data.Some? then DecodeBody(decode, payload)
    else CouldNotExtract
  }

  /** The last text/html part of `s`. */
  function LastHtml(s: seq<Part>, html: Option<Part>): Option<Part>
  {
    if s == [] then html
    else if s[|s| - 1].mimeType == "text/html" then Some(s[|s| - 1])
    else LastHtml(s[..|s| - 1], html)
  }

  lemma LastHtmlStep(s: seq<Part>, i: int, html: Option<Part>)
    requires 0 <= i < |s|
    ensures LastHtml(s[..i + 1], html)
      == if s[i].mimeType == "text/html" then Some(s[i]) else LastHtml(s[..i], html)
  {
    assert s[..i + 1][..i] == s[..i];
  }

  /** The scan runs to the first sibling that stops it; without one it ends on the last
      HTML part seen. */
  lemma {:induction false} ScanReaches(decode: string -> Option<string>, parts: seq<Part>, i: nat,
                                       html: Option<Part>, j: nat)
    requires i <= j <= |parts|
    requires forall k :: i <= k < j ==> !Stops(decode, parts[k])
    ensures ScanFrom(decode, parts, i, html) == ScanFrom(decode, parts, j, LastHtml(parts[i..j], html))
    decreases j - i
  {
    if i == j {
      assert parts[i..j] == [];
    } else {
      var p := parts[i];
      var next := if p.mimeType == "text/html" then Some(p) else html;
      assert !Stops(decode, p);
      assert ScanFrom(decode, parts, i, html) == ScanFrom(decode, parts, i + 1, next);
      ScanReaches(decode, parts, i + 1, next, j);
      LastHtmlFrom(parts[i..j], html);
      assert parts[i..j][1..] == parts[i + 1..j];
    }
  }

  lemma {:induction false} LastHtmlFrom(s: seq<Part>, html: Option<Part>)
    requires s != []
    ensures LastHtml(s, html) == LastHtml(s[1..], if s[0].mimeType == "text/html" then Some(s[0]) else html)
    decreases |s|
  {
    if |s| > 1 {
      var init := s[..|s| - 1];
      LastHtmlFrom(init, html);
      assert init[1..] == s[1..][..|s[1..]| - 1];
      assert init[0] == s[0];
    } else {
      assert s[1..] == [];
      assert s[..0] == [];
    }
  }

  /** The first text/plain sibling is chosen, whatever HTML parts come before or after it. */
  lemma FirstPlainChosen(decode: string -> Option<string>, parts: seq<Part>, j: nat)
    requires j < |parts| && parts[j].mimeType == "text/plain"
    requires forall k :: 0 <= k < j ==> !Stops(decode, parts[k])
    ensures ScanFrom(decode, parts, 0, None) == Target(Some(parts[j]))
  {
    ScanReaches(decode, parts, 0, None, j);
  }

  /** A nested multipart whose body was found is returned as soon as it is reached. */
  lemma NestedReturned(decode: string -> Option<string>, parts: seq<Part>, j: nat)
    requires j < |parts| && parts[j].mimeType != "text/plain" && Stops(decode, parts[j])
    requires forall k :: 0 <= k < j ==> !Stops(decode, parts[k])
    ensures ScanFrom(decode, parts, 0, None) == Returned(BodyFromPayload(decode, parts[j]))
  {
    ScanReaches(decode, parts, 0, None, j);
  }

  /** HTML is chosen only when no sibling stops the scan, and then it is the last one. */
  lemma HtmlWithoutPlain(decode: string -> Option<string>, parts: seq<Part>)
    requires forall k :: 0 <= k < |parts| ==> !Stops(decode, parts[k])
    ensures ScanFrom(decode, parts, 0, None) == Target(LastHtml(parts, None))
  {
    ScanReaches(decode, parts, 0, None, |parts|);
    assert parts[0..|parts|] == parts;
  }

  /** A plain or HTML part carrying no data never yields a body. */
  predicate Unusable(p: Part)
  {
    (p.mimeType == "text/plain" || p.mimeType == "text/html") ==> p.data.None?
  }

  lemma {:induction false} LastHtmlUnusable(s: seq<Part>)
    requires forall k :: 0 <= k < |s| ==> Unusable(s[k])
    ensures LastHtml(s, None).None? || LastHtml(s, None).value.data.None?
  {
    if s != [] {
      LastHtmlUnusable(s[..|s| - 1]);
    }
  }

  /** With no usable text part and no nested body, the result is the fixed sentinel. */
  lemma NothingUsable(decode: string -> Option<string>, payload: Part)
    requires payload.children.Parts?
    requires forall k :: 0 <= k < |payload.children.list| ==> Unusable(payload.children.list[k])
    requires forall k :: 0 <= k < |payload.children.list| ==>
      payload.children.list[k].mimeType != "text/html" && StartsWith(payload.children.list[k].mimeType, "multipart/")
      ==> BodyFromPayload(decode, payload.children.list[k]) == CouldNotExtract
    ensures BodyFromPayload(decode, payload) == CouldNotExtract
  {
    var parts := payload.children.list;
    var j := 0;
    while j < |parts| && !Stops(decode, parts[j])
      invariant 0 <= j <= |parts|
      invariant forall k :: 0 <= k < j ==> !Stops(decode, parts[k])
    {
      j := j + 1;
    }
    ScanReaches(decode, parts, 0, None, j);
    if j < |parts| {
      assert parts[j].mimeType == "text/plain";
    } else {
      assert parts[0..j] == parts;
      LastHtmlUnusable(parts);
    }
  }

  /** A single-part payload without data yields the sentinel. */
  lemma SinglePartWithoutData(decode: string -> Option<string>, payload: Part)
    requires payload.children.NoParts? && payload.data.None?
    ensures BodyFromPayload(decode, payload) == CouldNotExtract
  {
  }

  /** A decoding failure yields the error text, in the single-part branch and for the
      part the scan chose. */
  lemma DecodeFailure(decode: string -> Option<string>, payload: Part)
    requires payload.children.NoParts? ==> payload.data.Some? && decode(payload.data.value).None?
    requires payload.children.Parts? ==>
      var s := ScanFrom(decode, payload.children.list, 0, None);
      s.Target? && s.part.Some? && s.part.value.data.Some? && decode(s.part.value.data.value).None?
    ensures BodyFromPayload(decode, payload) == DecodeError
  {
  }

  /** The loop of `_extract_body_from_payload`, recursive on nested multiparts. */
  method ExtractBodyFromPayload(decode: string -> Option<string>, payload: Part) returns (body: string)
    ensures body == BodyFromPayload(decode, payload)
    decreases Size(payload)
  {
    body := CouldNotExtract;
    if payload.children.Parts? {
      var parts := payload.children.list;
      var plainPart: Option<Part> := None;
      var htmlPart: Option<Part> := None;
      var i := 0;
      while i < |parts|
        invariant 0 <= i <= |parts|
        invariant plainPart.None?
        invariant ScanFrom(decode, parts, 0, None) == ScanFrom(decode, parts, i, htmlPart)
      {
        var part := parts[i];
        if part.mimeType == "text/plain" {
          plainPart := Some(part);
          break;
        } else if part.mimeType == "text/html" {
          htmlPart := Some(part);
        } else if StartsWith(part.mimeType, "multipart/") {
          SizeOfElement(parts, i);
          var nested := ExtractBodyFromPayload(decode, part);
          if nested != CouldNotExtract {
            return nested;
          }
        }
        i := i + 1;
      }
      var target := if plainPart.Some? then plainPart else htmlPart;
      if target.Some? && target.value.data.Some? {
        body := DecodeBody(decode, target.value);
      }
    } else if payload.data.Some? {
      body := DecodeBody(decode, payload);
    }
  }

  // ---- `search_gmail_for_transactions`

  const MaxBodyLength := 1000

  /** `body[:1000] + ("..." if len(body) > 1000 else "")`. */
  function Truncate(body: string): (r: string)
    ensures |body| <= MaxBodyLength ==> r == body
    ensures |body| > MaxBodyLength ==>
      |r| == MaxBodyLength + 3 && r[..MaxBodyLength] == body[..MaxBodyLength] && r[MaxBodyLength..] == "..."
  {
    if |body| > MaxBodyLength then body[..MaxBodyLength] + "..." else body
  }

  /** `message.get('payload', {})`. */
  function PayloadOf(m: Message): Part
  {
    if m.payload.Some? then m.payload.value else EmptyPayload
  }

  function Entry(decode: string -> Option<string>, m: Message): string
  {
    "- Subject: " + FirstSubject(MessageHeaders(m)) + "\n  Body: " + Truncate(BodyFromPayload(decode, PayloadOf(m)))
  }

  function EntryWith(decode: string -> Option<string>): Message -> string
  {
    m => Entry(decode, m)
  }

  /** The tool. `initError` is the exception text when the service cannot be set up;
      `search` and `fetch` stand for the list and get calls, `None` for a failed call. */
  method SearchGmailForTransactions(decode: string -> Option<string>, initError: Option<string>,
                                    search: string -> Option<seq<string>>, fetch: string -> Option<Message>,
                                    query: string, maxResults: int)
    returns (r: string, fetches: nat)
    ensures r == SearchReport(EntryWith(decode), initError, Refs(search, query),
                              Outcomes(fetch, Refs(search, query)), maxResults)
    ensures fetches <= |Refs(search, query)|
    ensures initError.Some? ==> fetches == 0
    ensures initError.None? ==>
      var outs := Outcomes(fetch, Refs(search, query));
      var got := Take(Successes(outs), maxResults);
      Successes(outs[..fetches]) == got && (fetches < |outs| ==> |got| >= maxResults)
      && (fetches > 0 ==> |Successes(outs[..fetches - 1])| < maxResults)
  {
    r, fetches := RunSearch(EntryWith(decode), initError, search, fetch, query, maxResults);
  }
}
