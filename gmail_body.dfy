/** Choosing the body text of a message in
    transaction_categorizer/sub_agents/gmail_agent/gmail_tool.py: `_find_best_text_in_parts`
    walks the part list, a nested multipart's non-empty text wins at once, otherwise the
    first non-empty HTML text beats the first non-empty plain text; `extract_email_body`
    applies it to a payload. */
module GmailBody {
  import opened Common
  import opened MimeTree
  import opened GmailText

  /** A `multipart/...` part that has a `parts` list: the walk descends into it. */
  predicate IsNested(p: Part)
  {
    StartsWith(LowerAscii(p.mimeType), "multipart/") && p.children.Parts?
  }

  /** A part of type `mime` (after lower-casing) with a non-empty body. */
  predicate IsTextLeaf(p: Part, mime: string)
  {
    LowerAscii(p.mimeType) == mime && p.data.Some? && p.data.value != ""
  }

  function NonEmpty(o: Option<string>): Option<string>
  {
    if o.Some? && o.value != "" then o else None
  }

  /** The decoded text of a text leaf, when it is non-empty. */
  function LeafText(codec: Codec, p: Part, mime: string): Option<string>
  {
    if IsTextLeaf(p, mime) then NonEmpty(Some(DecodePartData(codec, p.data.value, mime))) else None
  }

  /** The first part of `s` whose `LeafText` for `mime` exists. */
  function FirstDecoded(codec: Codec, s: seq<Part>, mime: string): (r: Option<string>)
    ensures r.Some? ==> r.value != ""
  {
    if s == [] then None
    else
      var earlier := FirstDecoded(codec, s[..|s| - 1], mime);
      if earlier.Some? then earlier else LeafText(codec, s[|s| - 1], mime)
  }

  /** The first nested multipart of `s` whose own best text exists. */
  function FirstNested(codec: Codec, s: seq<Part>): (r: Option<string>)
    ensures r.Some? ==> r.value != ""
    decreases SizeOf(s), 0
  {
    if s == [] then None
    else
      SizeOfLast(s);
      var earlier := FirstNested(codec, s[..|s| - 1]);
      if earlier.Some? then earlier
      else if IsNested(s[|s| - 1]) then BestText(codec, s[|s| - 1].children.list)
      else None
  }

  /** What `_find_best_text_in_parts(parts)` returns; `None` stands for Python's `None`. */
  function BestText(codec: Codec, parts: seq<Part>): (r: Option<string>)
    ensures r.Some? ==> r.value != ""
    decreases SizeOf(parts), 1
  {
    var nested := FirstNested(codec, parts);
    if nested.Some? then nested
    else
      var html := FirstDecoded(codec, parts, "text/html");
      if html.Some? then html else FirstDecoded(codec, parts, "text/plain")
  }

  // ---- what the three choices mean, stated by index

  /** `j` is the first part whose leaf text for `mime` exists. */
  predicate FirstLeafAt(codec: Codec, s: seq<Part>, mime: string, j: int)
  {
    0 <= j < |s| && LeafText(codec, s[j], mime).Some?
    && forall k :: 0 <= k < j ==> LeafText(codec, s[k], mime).None?
  }

  lemma {:induction false} FirstDecodedAt(codec: Codec, s: seq<Part>, mime: string, j: int)
    requires FirstLeafAt(codec, s, mime, j)
    ensures FirstDecoded(codec, s, mime) == LeafText(codec, s[j], mime)
    decreases |s|
  {
    if j < |s| - 1 {
      var init := s[..|s| - 1];
      assert FirstLeafAt(codec, init, mime, j) by {
        assert forall k :: 0 <= k <= j ==> init[k] == s[k];
      }
      FirstDecodedAt(codec, init, mime, j);
    } else {
      FirstDecodedNone(codec, s[..j], mime);
      assert s[..|s| - 1] == s[..j];
    }
  }

  lemma {:induction false} FirstDecodedNone(codec: Codec, s: seq<Part>, mime: string)
    requires forall k :: 0 <= k < |s| ==> LeafText(codec, s[k], mime).None?
    ensures FirstDecoded(codec, s, mime).None?
    decreases |s|
  {
    if s != [] {
      FirstDecodedNone(codec, s[..|s| - 1], mime);
    }
  }

  /** A nested multipart with non-empty text, preceded by no other such multipart, decides
      the result whatever leaves stand before or after it. */
  lemma {:induction false} NestedWins(codec: Codec, parts: seq<Part>, j: int)
    requires 0 <= j < |parts| && IsNested(parts[j])
    requires BestText(codec, parts[j].children.list).Some?
    requires forall k :: 0 <= k < j ==> !(IsNested(parts[k]) && BestText(codec, parts[k].children.list).Some?)
    ensures BestText(codec, parts) == BestText(codec, parts[j].children.list)
  {
    FirstNestedAt(codec, parts, j);
  }

  lemma {:induction false} FirstNestedAt(codec: Codec, s: seq<Part>, j: int)
    requires 0 <= j < |s| && IsNested(s[j])
    requires BestText(codec, s[j].children.list).Some?
    requires forall k :: 0 <= k < j ==> !(IsNested(s[k]) && BestText(codec, s[k].children.list).Some?)
    ensures FirstNested(codec, s) == BestText(codec, s[j].children.list)
    decreases |s|
  {
    if j < |s| - 1 {
      var init := s[..|s| - 1];
      assert forall k :: 0 <= k <= j ==> init[k] == s[k];
      FirstNestedAt(codec, init, j);
    } else {
      FirstNestedNone(codec, s[..j]);
      assert s[..|s| - 1] == s[..j];
    }
  }

  lemma {:induction false} FirstNestedNone(codec: Codec, s: seq<Part>)
    requires forall k :: 0 <= k < |s| ==> !(IsNested(s[k]) && BestText(codec, s[k].children.list).Some?)
    ensures FirstNested(codec, s).None?
    decreases |s|
  {
    if s != [] {
      FirstNestedNone(codec, s[..|s| - 1]);
    }
  }

  /** With no nested multipart text, the first non-empty HTML text is the result, even
      when plain-text parts come before it. */
  lemma HtmlBeatsPlain(codec: Codec, parts: seq<Part>, j: int)
    requires forall k :: 0 <= k < |parts| ==> !(IsNested(parts[k]) && BestText(codec, parts[k].children.list).Some?)
    requires FirstLeafAt(codec, parts, "text/html", j)
    ensures BestText(codec, parts) == LeafText(codec, parts[j], "text/html")
  {
    FirstNestedNone(codec, parts);
    FirstDecodedAt(codec, parts, "text/html", j);
  }

  /** With neither nested text nor non-empty HTML, the first non-empty plain text wins. */
  lemma PlainAsFallback(codec: Codec, parts: seq<Part>, j: int)
    requires forall k :: 0 <= k < |parts| ==> !(IsNested(parts[k]) && BestText(codec, parts[k].children.list).Some?)
    requires forall k :: 0 <= k < |parts| ==> LeafText(codec, parts[k], "text/html").None?
    requires FirstLeafAt(codec, parts, "text/plain", j)
    ensures BestText(codec, parts) == LeafText(codec, parts[j], "text/plain")
  {
    FirstNestedNone(codec, parts);
    FirstDecodedNone(codec, parts, "text/html");
    FirstDecodedAt(codec, parts, "text/plain", j);
  }

  /** With none of the three, the result is `None`. */
  lemma NothingFound(codec: Codec, parts: seq<Part>)
    requires forall k :: 0 <= k < |parts| ==> !(IsNested(parts[k]) && BestText(codec, parts[k].children.list).Some?)
    requires forall k :: 0 <= k < |parts| ==> LeafText(codec, parts[k], "text/html").None?
    requires forall k :: 0 <= k < |parts| ==> LeafText(codec, parts[k], "text/plain").None?
    ensures BestText(codec, parts).None?
  {
    FirstNestedNone(codec, parts);
    FirstDecodedNone(codec, parts, "text/html");
    FirstDecodedNone(codec, parts, "text/plain");
  }

  lemma {:induction false} FirstNestedStable(codec: Codec, s: seq<Part>, i: int)
    requires 0 <= i <= |s|
    requires FirstNested(codec, s[..i]).Some?
    ensures FirstNested(codec, s) == FirstNested(codec, s[..i])
    decreases |s| - i
  {
    if i < |s| {
      assert s[..i + 1][..i] == s[..i];
      FirstNestedStable(codec, s, i + 1);
    } else {
      assert s[..i] == s;
    }
  }

  lemma DecodedStep(codec: Codec, s: seq<Part>, i: int, mime: string)
    requires 0 <= i < |s|
    ensures FirstDecoded(codec, s[..i + 1], mime)
      == (var earlier := FirstDecoded(codec, s[..i], mime);
          if earlier.Some? then earlier else LeafText(codec, s[i], mime))
  {
    assert s[..i + 1][..i] == s[..i];
  }

  lemma NestedStep(codec: Codec, s: seq<Part>, i: int)
    requires 0 <= i < |s|
    ensures FirstNested(codec, s[..i + 1])
      == (var earlier := FirstNested(codec, s[..i]);
          if earlier.Some? then earlier
          else if IsNested(s[i]) then BestText(codec, s[i].children.list)
          else None)
  {
    assert s[..i + 1][..i] == s[..i];
  }

  lemma MultipartIsNotText(mime: string)
    requires StartsWith(mime, "multipart/")
    ensures mime != "text/html" && mime != "text/plain"
  {
    assert mime[0] == mime[..10][0] == 'm';
  }

  /** `_find_best_text_in_parts(parts)`: one pass over the parts, remembering the first
      non-empty HTML and plain texts, returning at once from a nested multipart. */
  method FindBestTextInParts(codec: Codec, parts: seq<Part>) returns (r: Option<string>)
    ensures r == BestText(codec, parts)
    decreases SizeOf(parts)
  {
    var html: Option<string> := None;
    var plain: Option<string> := None;
    var i := 0;
    while i < |parts|
      invariant 0 <= i <= |parts|
      invariant FirstNested(codec, parts[..i]).None?
      invariant NonEmpty(html) == FirstDecoded(codec, parts[..i], "text/html")
      invariant NonEmpty(plain) == FirstDecoded(codec, parts[..i], "text/plain")
    {
      var part := parts[i];
      var mime := LowerAscii(part.mimeType);
      DecodedStep(codec, parts, i, "text/html");
      DecodedStep(codec, parts, i, "text/plain");
      NestedStep(codec, parts, i);
      if StartsWith(mime, "multipart/") && part.children.Parts? {
        SizeOfElement(parts, i);
        MultipartIsNotText(mime);
        var nested := FindBestTextInParts(codec, part.children.list);
        if nested.Some? && nested.value != "" {
          FirstNestedStable(codec, parts, i + 1);
          return nested;
        }
      } else if mime == "text/html" && part.data.Some? && part.data.value != "" {
        if !(html.Some? && html.value != "") {
          html := Some(DecodePartData(codec, part.data.value, mime));
        }
      } else if mime == "text/plain" && part.data.Some? && part.data.value != "" {
        if !(plain.Some? && plain.value != "") {
          plain := Some(DecodePartData(codec, part.data.value, mime));
        }
      }
      i := i + 1;
    }
    assert parts[..i] == parts;
    if html.Some? && html.value != "" {
      return html;
    }
    if plain.Some? && plain.value != "" {
      return plain;
    }
    return None;
  }

  /** `extract_email_body(payload)`. */
  function ExtractEmailBody(codec: Codec, payload: Part): (r: Option<string>)
    ensures payload == EmptyPayload ==> r.None?
    ensures payload.children.Parts? ==> r == BestText(codec, payload.children.list)
    ensures (payload.children.NoParts? && LowerAscii(payload.mimeType) != "text/plain"
             && LowerAscii(payload.mimeType) != "text/html") ==> r.None?
    ensures payload.children.NoParts? && payload.data.None? ==> r.None?
    ensures (payload.children.NoParts? && payload.data.Some?
             && (LowerAscii(payload.mimeType) == "text/plain" || LowerAscii(payload.mimeType) == "text/html"))
      ==> r == Some(DecodePartData(codec, payload.data.value, LowerAscii(payload.mimeType)))
  {
    if payload == EmptyPayload then None
    else
      var mime := LowerAscii(payload.mimeType);
      if payload.children.Parts? then BestText(codec, payload.children.list)
      else if payload.data.Some? && (mime == "text/plain" || mime == "text/html") then
        Some(DecodePartData(codec, payload.data.value, mime))
      else None
  }
}
