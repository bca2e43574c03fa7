/** The text helpers of transaction_categorizer/sub_agents/gmail_agent/gmail_tool.py:
    the "looks like a URL" heuristic, the label chosen for a hyperlink, and the
    decoding and clean-up of one body part. */
module GmailText {
  import opened Common
  import opened TextNormalize

  // ---- is_text_clearly_a_url

  predicate HasUrlScheme(text: string)
  {
    StartsWith(text, "http://") || StartsWith(text, "https://") || StartsWith(text, "www.")
    || StartsWith(text, "ftp://") || StartsWith(text, "mailto:")
  }

  predicate IsUrlPunctuation(c: char)
  {
    c == '.' || c == '/' || c == '?' || c == '=' || c == '&' || c == '~' || c == '%' || c == '#' || c == '@'
  }

  /** Condition 3 of the heuristic: long, no space, URL punctuation including a dot or a
      slash, and at least one ASCII letter. */
  predicate UrlShaped(text: string)
  {
    && |text| > 20
    && ' ' !in text
    && (exists i :: 0 <= i < |text| && IsUrlPunctuation(text[i]))
    && ('.' in text || '/' in text)
    && (exists i :: 0 <= i < |text| && IsAsciiLetter(text[i]))
  }

  /** `is_text_clearly_a_url(text, href)`. An empty `href` is ignored, as Python's
      truthiness test ignores it. */
  predicate IsTextClearlyAUrl(text: string, href: Option<string>)
    ensures IsTextClearlyAUrl(text, href) ==> text != []
    ensures HasUrlScheme(text) ==> IsTextClearlyAUrl(text, href)
    ensures text != [] && href == Some(text) ==> IsTextClearlyAUrl(text, href)
    ensures IsTextClearlyAUrl(text, href) && !HasUrlScheme(text) && href != Some(text) ==>
              |text| > 20 && ' ' !in text && ('.' in text || '/' in text)
  {
    if text == [] then false
    else if HasUrlScheme(text) then true
    else if href.Some? && href.value != [] && text == href.value then true
    else UrlShaped(text)
  }

  lemma UrlRejectsEmpty(href: Option<string>)
    ensures !IsTextClearlyAUrl("", href)
  {
  }

  /** Every text starting with one of the five prefixes is URL-shaped. */
  lemma UrlAcceptsSchemes(rest: string, href: Option<string>)
    ensures IsTextClearlyAUrl("http://" + rest, href)
    ensures IsTextClearlyAUrl("https://" + rest, href)
    ensures IsTextClearlyAUrl("www." + rest, href)
    ensures IsTextClearlyAUrl("ftp://" + rest, href)
    ensures IsTextClearlyAUrl("mailto:" + rest, href)
  {
    assert ("http://" + rest)[..7] == "http://";
    assert ("https://" + rest)[..8] == "https://";
    assert ("www." + rest)[..4] == "www.";
    assert ("ftp://" + rest)[..6] == "ftp://";
    assert ("mailto:" + rest)[..7] == "mailto:";
  }

  /** A non-empty text identical to its non-empty link target is URL-shaped. */
  lemma UrlAcceptsOwnHref(text: string)
    requires text != []
    ensures IsTextClearlyAUrl(text, Some(text))
  {
  }

  /** Apart from the prefixes and the link target, only the length-and-character test
      decides, in both directions. */
  lemma UrlHeuristicOtherwise(text: string, href: Option<string>)
    requires !HasUrlScheme(text)
    requires !(href.Some? && href.value == text)
    ensures IsTextClearlyAUrl(text, href) <==>
      (|text| > 20 && ' ' !in text && ('.' in text || '/' in text)
       && exists i :: 0 <= i < |text| && IsAsciiLetter(text[i]))
  {
    if |text| > 20 && ' ' !in text && ('.' in text || '/' in text) {
      var i :| 0 <= i < |text| && (text[i] == '.' || text[i] == '/');
      assert IsUrlPunctuation(text[i]);
    }
  }

  lemma StartsWithFirst(text: string, prefix: string)
    requires prefix != []
    ensures StartsWith(text, prefix) ==> text != [] && text[0] == prefix[0]
  {
    if StartsWith(text, prefix) {
      assert text[..|prefix|][0] == text[0];
    }
  }

  lemma NoSchemeByFirstLetter(text: string)
    requires text != [] && text[0] != 'h' && text[0] != 'w' && text[0] != 'f' && text[0] != 'm'
    ensures !HasUrlScheme(text)
  {
    StartsWithFirst(text, "http://");
    StartsWithFirst(text, "https://");
    StartsWithFirst(text, "www.");
    StartsWithFirst(text, "ftp://");
    StartsWithFirst(text, "mailto:");
  }

  /** A short text with no scheme prefix is URL-shaped only when it is the link target. */
  lemma ShortTextIsUrlOnlyAsHref(text: string, href: Option<string>)
    requires |text| <= 20 && !HasUrlScheme(text)
    ensures IsTextClearlyAUrl(text, href) <==> (text != [] && href == Some(text))
  {
  }

  // ---- the label of a hyperlink, `[label] `

  const LinkLabel: string := "Link"

  /** The image alt text, stripped, when it qualifies as a label. */
  function AltLabel(alt: Option<string>, href: string): Option<string>
  {
    match alt
    case None => None
    case Some(a) =>
      var t := Strip(a);
      if t != [] && !IsTextClearlyAUrl(t, Some(href)) then Some(t) else None
  }

  /** The label as the loop over anchors computes it: the anchor text replaces the
      default "Link" when it is non-empty and not URL-shaped; the image alt is then tried
      whenever the label still EQUALS "Link", which includes an anchor whose own text is
      "Link". */
  function AnchorLabelAsWritten(anchorText: string, alt: Option<string>, href: string): (r: string)
    ensures r != []
    ensures r == LinkLabel || !IsTextClearlyAUrl(r, Some(href))
    ensures anchorText != LinkLabel && anchorText != [] && !IsTextClearlyAUrl(anchorText, Some(href)) ==>
              r == anchorText
    ensures anchorText == LinkLabel && AltLabel(alt, href).Some? ==> r == AltLabel(alt, href).value
  {
    var fromText := if anchorText != [] && !IsTextClearlyAUrl(anchorText, Some(href)) then anchorText else LinkLabel;
    if fromText == LinkLabel then
      match AltLabel(alt, href)
      case Some(t) => t
      case None => LinkLabel
    else fromText
  }

  /** The label rule as documented: anchor text if it is non-empty and not URL-shaped,
      else a non-empty, non-URL image alt, else "Link". */
  function AnchorLabel(anchorText: string, alt: Option<string>, href: string): (r: string)
    ensures anchorText != [] && !IsTextClearlyAUrl(anchorText, Some(href)) ==> r == anchorText
    ensures (anchorText == [] || IsTextClearlyAUrl(anchorText, Some(href))) ==>
              r == (if AltLabel(alt, href).Some? then AltLabel(alt, href).value else LinkLabel)
    ensures r != []
    ensures r == LinkLabel || !IsTextClearlyAUrl(r, Some(href))
  {
    if anchorText != [] && !IsTextClearlyAUrl(anchorText, Some(href)) then anchorText
    else
      match AltLabel(alt, href)
      case Some(t) => t
      case None => LinkLabel
  }

  /** The two rules differ only for an anchor whose text is "Link". */
  lemma AnchorLabelsAgree(anchorText: string, alt: Option<string>, href: string)
    requires anchorText != LinkLabel
    ensures AnchorLabelAsWritten(anchorText, alt, href) == AnchorLabel(anchorText, alt, href)
  {
  }

  const ShopHref: string := "https://shop.example"

  /** The alt text "Logo" qualifies as a label for that link. */
  lemma LogoAltQualifies()
    ensures AltLabel(Some("Logo"), ShopHref) == Some("Logo")
  {
    assert Trimmed("Logo") by {
      assert "Logo"[0] == 'L' && "Logo"[3] == 'o';
    }
    StripOfTrimmed("Logo");
    NoSchemeByFirstLetter("Logo");
    ShortTextIsUrlOnlyAsHref("Logo", Some(ShopHref));
  }

  /** The anchor text "Link" is not URL-shaped for that link. */
  lemma LinkTextIsNoUrl()
    ensures !IsTextClearlyAUrl(LinkLabel, Some(ShopHref))
  {
    NoSchemeByFirstLetter(LinkLabel);
    ShortTextIsUrlOnlyAsHref(LinkLabel, Some(ShopHref));
  }

  /** `<a href="https://shop.example"><img alt="Logo">Link</a>`: as written the label is
      the alt text, although the anchor text is neither empty nor URL-shaped. */
  lemma AnchorLabelAsWrittenPrefersAlt()
    ensures AnchorLabelAsWritten(LinkLabel, Some("Logo"), ShopHref) == "Logo"
    ensures AnchorLabel(LinkLabel, Some("Logo"), ShopHref) == LinkLabel
  {
    LogoAltQualifies();
    LinkTextIsNoUrl();
  }

  /** The text an anchor is replaced by: the label in brackets, then one space. */
  function AnchorReplacement(caption: string): (r: string)
    ensures |r| == |caption| + 3
    ensures r[0] == '[' && r[|r| - 2..] == "] "
    ensures r[1..|r| - 2] == caption
  {
    "[" + caption + "] "
  }

  // ---- _decode_email_part_data

  /** The collaborators of the decoder that are not modelled: base64url decoding
      followed by UTF-8 decoding with replacement (`None` when either raises), and the
      HTML parser's visible text after unwanted tags are dropped and every anchor is
      replaced by its `AnchorReplacement`. */
  datatype Codec = Codec(decode: string -> Option<string>, htmlText: string -> string)

  const DecodeErrorText: string := "(Error processing email content due to exception)"

  /** `_decode_email_part_data(data, mime_type)`. */
  function DecodePartData(codec: Codec, data: string, mimeType: string): (r: string)
    ensures codec.decode(data).None? ==> r == DecodeErrorText
    ensures codec.decode(data).Some? && mimeType == "text/html" ==>
              r == NormalizeHtmlText(codec.htmlText(codec.decode(data).value))
              && Clean(r) && Visible(r) == Visible(codec.htmlText(codec.decode(data).value))
    ensures codec.decode(data).Some? && mimeType != "text/html" ==>
              r == NormalizePlainText(codec.decode(data).value)
              && Clean(r) && Visible(r) == Visible(codec.decode(data).value)
  {
    match codec.decode(data)
    case None => DecodeErrorText
    case Some(text) =>
      if mimeType == "text/html" then NormalizeHtmlText(codec.htmlText(text))
      else NormalizePlainText(text)
  }
}
