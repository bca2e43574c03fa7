/** The message resource returned by the mail service, as the retrieval code reads it:
    a tree of MIME parts (section 5.1 of RFC 2046) whose bodies are still in the
    base64url alphabet (section 5 of RFC 4648), with the headers of each part. */
module MimeTree {
  import opened Common

  /** One `{name, value}` entry of a `headers` list. A missing `name` is read as the
      empty string by every caller; a missing `value` is `None`. */
  datatype Header = Header(name: string, value: Option<string>)

  /** A node of the `payload` tree. `data` is `body.data` when present (it may be the
      empty string); `children` records whether the node has a `parts` key at all. */
  datatype Part = Part(mimeType: string, headers: seq<Header>, data: Option<string>, children: Children)

  datatype Children = NoParts | Parts(list: seq<Part>)

  /** A fetched message resource: its `snippet` and `payload`, when present. */
  datatype Message = Message(snippet: Option<string>, payload: Option<Part>)

  /** The `{}` payload: no type, no headers, no body, no parts. */
  const EmptyPayload: Part := Part("", [], None, NoParts)

  /** Number of nodes in a part tree; the termination measure of every walk over it. */
  function Size(p: Part): nat
  {
    1 + (if p.children.Parts? then SizeOf(p.children.list) else 0)
  }

  function SizeOf(s: seq<Part>): nat
  {
    if s == [] then 0 else SizeOf(s[..|s| - 1]) + Size(s[|s| - 1])
  }

  lemma SizeOfLast(s: seq<Part>)
    requires s != []
    ensures SizeOf(s[..|s| - 1]) < SizeOf(s)
    ensures s[|s| - 1].children.Parts? ==> SizeOf(s[|s| - 1].children.list) < SizeOf(s)
  {
  }

  lemma {:induction false} SizeOfElement(s: seq<Part>, i: int)
    requires 0 <= i < |s|
    ensures Size(s[i]) <= SizeOf(s)
    ensures s[i].children.Parts? ==> SizeOf(s[i].children.list) < SizeOf(s)
    decreases |s|
  {
    if i < |s| - 1 {
      SizeOfElement(s[..|s| - 1], i);
    }
  }
}
