/** Serialisation of the AST to XML text (ddex-builder
    `generator/xml_writer.rs`). The writer appends to one buffer: the fixed
    declaration, then the root element, written recursively with an indent
    per depth, namespace declarations on the root only, attributes in map
    order, self-closing empty elements and single-text elements on one line. */
module XmlWriter {
  import opened Util
  import opened Ast
  import IndexMap
  import opened Determinism

  /** The declaration line every document starts with. */
  const XML_DECLARATION := "<?xml version=\"1.0\" encoding=\"UTF-8\"?>"

  /** The writer's `match` over child nodes has arms for elements, text and
      structured comments only; a tree it can write holds no legacy comment. */
  predicate Writable(e: Element)
    decreases e
  {
    forall i :: 0 <= i < |e.children| ==>
      !e.children[i].SimpleCommentNode? && (e.children[i].ElementNode? ==> Writable(e.children[i].elem))
  }

  // ---------------------------------------------------------------- indentation

  /** `get_indent`: `depth * indent_width` spaces, or `depth` tabs. */
  function Indent(cfg: DeterminismConfig, depth: nat): string {
    match cfg.indentChar
    case Space => Repeat(" ", depth * cfg.indentWidth)
    case Tab => Repeat("\t", depth)
  }

  /** The indent is `depth * indent_width` spaces, or `depth` tabs, and
      nothing at the root. */
  lemma IndentShape(cfg: DeterminismConfig, depth: nat)
    ensures cfg.indentChar == Space ==>
      |Indent(cfg, depth)| == depth * cfg.indentWidth && forall i :: 0 <= i < |Indent(cfg, depth)| ==> Indent(cfg, depth)[i] == ' '
    ensures cfg.indentChar == Tab ==>
      |Indent(cfg, depth)| == depth && forall i :: 0 <= i < |Indent(cfg, depth)| ==> Indent(cfg, depth)[i] == '\t'
  {
    match cfg.indentChar
    case Space => RepeatAllChars(" ", depth * cfg.indentWidth);
    case Tab => RepeatAllChars("\t", depth);
  }

  // ------------------------------------------------------------------- escaping

  /** `escape_text`: `&`, then `<`, then `>` are replaced by their entities. */
  function EscapeText(s: string): string {
    ReplaceChar(ReplaceChar(ReplaceChar(s, '&', "&amp;"), '<', "&lt;"), '>', "&gt;")
  }

  /** `escape_attribute`: as `escape_text`, then `"` and `'` as well. */
  function EscapeAttribute(s: string): string {
    ReplaceChar(ReplaceChar(EscapeText(s), '"', "&quot;"), '\'', "&apos;")
  }

  /** What one character of text becomes when escaped on its own. */
  function EscapeTextChar(c: char): string {
    if c == '&' then "&amp;" else if c == '<' then "&lt;" else if c == '>' then "&gt;" else [c]
  }

  /** What one character of an attribute value becomes when escaped on its own. */
  function EscapeAttributeChar(c: char): string {
    if c == '"' then "&quot;" else if c == '\'' then "&apos;" else EscapeTextChar(c)
  }

  /** Escaping character by character: the reference the chained replacements
      are measured against. */
  function EscapeEach(s: string, attribute: bool): string {
    if s == [] then []
    else (if attribute then EscapeAttributeChar(s[0]) else EscapeTextChar(s[0])) + EscapeEach(s[1..], attribute)
  }

  /** The predefined entity of XML 1.0 (section 4.6) that `t` starts with,
      as the character it stands for and its length. */
  function EntityAt(t: string): Option<(char, nat)> {
    if StartsWith(t, "&amp;") then Some(('&', 5))
    else if StartsWith(t, "&lt;") then Some(('<', 4))
    else if StartsWith(t, "&gt;") then Some(('>', 4))
    else if StartsWith(t, "&quot;") then Some(('"', 6))
    else if StartsWith(t, "&apos;") then Some(('\'', 6))
    else None
  }

  /** Decodes the predefined entities, leaving every other character alone. */
  function Unescape(t: string): string
    decreases |t|
  {
    if t == [] then []
    else match EntityAt(t)
      case Some(entity) => [entity.0] + Unescape(t[entity.1..])
      case None => [t[0]] + Unescape(t[1..])
  }

  lemma EscapeTextAppend(a: string, b: string)
    ensures EscapeText(a + b) == EscapeText(a) + EscapeText(b)
  {
    ReplaceCharAppend(a, b, '&', "&amp;");
    ReplaceCharAppend(ReplaceChar(a, '&', "&amp;"), ReplaceChar(b, '&', "&amp;"), '<', "&lt;");
    ReplaceCharAppend(ReplaceChar(ReplaceChar(a, '&', "&amp;"), '<', "&lt;"),
                      ReplaceChar(ReplaceChar(b, '&', "&amp;"), '<', "&lt;"), '>', "&gt;");
  }

  lemma EscapeAttributeAppend(a: string, b: string)
    ensures EscapeAttribute(a + b) == EscapeAttribute(a) + EscapeAttribute(b)
  {
    EscapeTextAppend(a, b);
    ReplaceCharAppend(EscapeText(a), EscapeText(b), '"', "&quot;");
    ReplaceCharAppend(ReplaceChar(EscapeText(a), '"', "&quot;"), ReplaceChar(EscapeText(b), '"', "&quot;"), '\'', "&apos;");
  }

  lemma EscapeTextOneChar(c: char)
    ensures EscapeText([c]) == EscapeTextChar(c)
  {
    ReplaceCharSingle(c, '&', "&amp;");
    if c == '&' {
      ReplaceCharAbsent("&amp;", '<', "&lt;");
      ReplaceCharAbsent("&amp;", '>', "&gt;");
    } else {
      ReplaceCharSingle(c, '<', "&lt;");
      if c == '<' {
        ReplaceCharAbsent("&lt;", '>', "&gt;");
      } else {
        ReplaceCharSingle(c, '>', "&gt;");
      }
    }
  }

  lemma EscapeAttributeOneChar(c: char)
    ensures EscapeAttribute([c]) == EscapeAttributeChar(c)
  {
    EscapeTextOneChar(c);
    var t := EscapeTextChar(c);
    if c == '"' || c == '\'' {
      ReplaceCharSingle(c, '"', "&quot;");
      if c == '\'' {
        ReplaceCharSingle(c, '\'', "&apos;");
      } else {
        ReplaceCharAbsent("&quot;", '\'', "&apos;");
      }
    } else {
      ReplaceCharAbsent(t, '"', "&quot;");
      ReplaceCharAbsent(t, '\'', "&apos;");
    }
  }

  /** Because `&` is replaced first, the entities introduced by the later
      replacements are not escaped again: the chain escapes each character
      exactly once. */
  lemma {:induction false} EscapeTextIsEscapeEach(s: string)
    ensures EscapeText(s) == EscapeEach(s, false)
  {
    if s != [] {
      assert s == [s[0]] + s[1..];
      EscapeTextAppend([s[0]], s[1..]);
      EscapeTextOneChar(s[0]);
      EscapeTextIsEscapeEach(s[1..]);
    }
  }

  lemma {:induction false} EscapeAttributeIsEscapeEach(s: string)
    ensures EscapeAttribute(s) == EscapeEach(s, true)
  {
    if s != [] {
      assert s == [s[0]] + s[1..];
      EscapeAttributeAppend([s[0]], s[1..]);
      EscapeAttributeOneChar(s[0]);
      EscapeAttributeIsEscapeEach(s[1..]);
    }
  }

  /** An entity at the front is decoded to its character, and decoding resumes after it. */
  lemma UnescapeEntity(entity: string, c: char, rest: string)
    requires EntityAt(entity + rest) == Some((c, |entity|))
    ensures Unescape(entity + rest) == [c] + Unescape(rest)
  {
    assert (entity + rest)[|entity|..] == rest;
  }

  /** The entity `entity` (whose second character is `second`) is recognised at
      the front of any text it starts. */
  lemma EntityAtFront(entity: string, second: char, c: char, rest: string)
    requires entity in ["&amp;", "&lt;", "&gt;", "&quot;", "&apos;"]
    requires |entity| > 2 && entity[1] == second
    requires EntityAt(entity) == Some((c, |entity|))
    ensures EntityAt(entity + rest) == Some((c, |entity|))
  {
    var t := entity + rest;
    assert t[..|entity|] == entity;
    assert t[0] == '&' && t[1] == second && t[2] == entity[2];
  }

  /** Decoding the escape of one character gives that character back and
      resumes right after it. */
  lemma UnescapeOneStep(c: char, attribute: bool, rest: string)
    ensures Unescape((if attribute then EscapeAttributeChar(c) else EscapeTextChar(c)) + rest) == [c] + Unescape(rest)
  {
    var head := if attribute then EscapeAttributeChar(c) else EscapeTextChar(c);
    if head == [c] {
      var t := head + rest;
      assert t[0] == c && t[1..] == rest;
      assert EntityAt(t).None?;
    } else {
      EntityAtFront(head, head[1], c, rest);
      UnescapeEntity(head, c, rest);
    }
  }

  lemma {:induction false} UnescapeEscapeEach(s: string, attribute: bool)
    ensures Unescape(EscapeEach(s, attribute)) == s
  {
    if s != [] {
      UnescapeEscapeEach(s[1..], attribute);
      UnescapeOneStep(s[0], attribute, EscapeEach(s[1..], attribute));
    }
  }

  /** Escaped text reads back as the original text. */
  lemma UnescapeEscapeText(s: string)
    ensures Unescape(EscapeText(s)) == s
  {
    EscapeTextIsEscapeEach(s);
    UnescapeEscapeEach(s, false);
  }

  /** Escaped attribute values read back as the original value. */
  lemma UnescapeEscapeAttribute(s: string)
    ensures Unescape(EscapeAttribute(s)) == s
  {
    EscapeAttributeIsEscapeEach(s);
    UnescapeEscapeEach(s, true);
  }

  /** The escape of one character holds no markup character. */
  lemma EscapeCharHasNoMarkup(c: char, attribute: bool)
    ensures var h := if attribute then EscapeAttributeChar(c) else EscapeTextChar(c);
      '<' !in h && '>' !in h && (attribute ==> '"' !in h && '\'' !in h)
  {
  }

  lemma {:induction false} EscapeEachHasNoMarkup(s: string, attribute: bool)
    ensures '<' !in EscapeEach(s, attribute) && '>' !in EscapeEach(s, attribute)
    ensures attribute ==> '"' !in EscapeEach(s, attribute) && '\'' !in EscapeEach(s, attribute)
  {
    if s != [] {
      var h := if attribute then EscapeAttributeChar(s[0]) else EscapeTextChar(s[0]);
      var t := EscapeEach(s[1..], attribute);
      EscapeEachHasNoMarkup(s[1..], attribute);
      EscapeCharHasNoMarkup(s[0], attribute);
      assert EscapeEach(s, attribute) == h + t;
    }
  }

  /** Escaped text holds no `<` or `>`, and text without `&`, `<`, `>` is
      written unchanged. */
  lemma EscapeTextSafe(s: string)
    ensures '<' !in EscapeText(s) && '>' !in EscapeText(s)
    ensures ('&' !in s && '<' !in s && '>' !in s) ==> EscapeText(s) == s
  {
    EscapeTextIsEscapeEach(s);
    EscapeEachHasNoMarkup(s, false);
    if '&' !in s && '<' !in s && '>' !in s {
      ReplaceCharAbsent(s, '&', "&amp;");
      ReplaceCharAbsent(s, '<', "&lt;");
      ReplaceCharAbsent(s, '>', "&gt;");
    }
  }

  /** An escaped attribute value holds none of `<`, `>`, `"`, `'`. */
  lemma EscapeAttributeSafe(s: string)
    ensures '<' !in EscapeAttribute(s) && '>' !in EscapeAttribute(s)
    ensures '"' !in EscapeAttribute(s) && '\'' !in EscapeAttribute(s)
  {
    EscapeAttributeIsEscapeEach(s);
    EscapeEachHasNoMarkup(s, true);
  }

  // ------------------------------------------------------------------- prefixes

  /** The prefix written in the start tag: for a namespaced element the first
      prefix bound to its URI; for an un-namespaced root the first prefix of
      the map; otherwise none. */
  function StartPrefix(e: Element, ns: IndexMap.Entries<string, string>, depth: nat): Option<string> {
    if e.namespace.Some? then IndexMap.FindKeyByValue(ns, e.namespace.value)
    else if depth == 0 && |ns| > 0 then Some(ns[0].0)
    else None
  }

  /** The prefix `get_element_name` uses in the end tag: the same rules, but
      an un-namespaced element takes the first prefix of the map at every depth. */
  function EndPrefix(e: Element, ns: IndexMap.Entries<string, string>): Option<string> {
    if e.namespace.Some? then IndexMap.FindKeyByValue(ns, e.namespace.value)
    else if |ns| > 0 then Some(ns[0].0)
    else None
  }

  function QName(prefix: Option<string>, name: string): string {
    if prefix.Some? then prefix.value + ":" + name else name
  }

  /** `get_element_name`. */
  function ElementName(e: Element, ns: IndexMap.Entries<string, string>): (r: string)
    ensures |e.name| <= |r| && r[|r| - |e.name|..] == e.name
  {
    QName(EndPrefix(e, ns), e.name)
  }

  /** The closing name of a namespaced element carries the first prefix bound
      to its URI, or no prefix when none is; an un-namespaced element carries
      the map's first prefix at any depth. */
  lemma ElementNameRules(e: Element, ns: IndexMap.Entries<string, string>)
    ensures e.namespace.Some? ==> forall i :: (0 <= i < |ns| && ns[i].1 == e.namespace.value
      && (forall j :: 0 <= j < i ==> ns[j].1 != e.namespace.value)) ==> ElementName(e, ns) == ns[i].0 + ":" + e.name
    ensures e.namespace.Some? && (forall i :: 0 <= i < |ns| ==> ns[i].1 != e.namespace.value) ==> ElementName(e, ns) == e.name
    ensures e.namespace.None? && |ns| > 0 ==> ElementName(e, ns) == ns[0].0 + ":" + e.name
    ensures e.namespace.None? && |ns| == 0 ==> ElementName(e, ns) == e.name
  {
    if e.namespace.Some? {
      IndexMap.FindKeyByValueFirst(ns, e.namespace.value);
    }
  }

  /** Start and end tag names agree exactly when the element is the root, is
      namespaced, or the map is empty; an un-namespaced nested element under a
      non-empty map opens as `<n>` and closes as `</p:n>`. */
  lemma TagNamesAgreeIff(e: Element, ns: IndexMap.Entries<string, string>, depth: nat)
    ensures QName(StartPrefix(e, ns, depth), e.name) == ElementName(e, ns)
      <==> (depth == 0 || e.namespace.Some? || |ns| == 0)
  {
    if !(depth == 0 || e.namespace.Some? || |ns| == 0) {
      assert |ElementName(e, ns)| > |e.name|;
    }
  }

  // -------------------------------------------------------------- the document

  function NamespaceDecl(entry: (string, string)): string {
    " xmlns:" + entry.0 + "=\"" + entry.1 + "\""
  }

  /** The namespace declarations, one per map entry in map order. */
  function NamespaceDecls(ns: IndexMap.Entries<string, string>): string {
    if ns == [] then "" else NamespaceDecls(ns[..|ns| - 1]) + NamespaceDecl(ns[|ns| - 1])
  }

  function SchemaLocationAttr(loc: Option<string>): string {
    if loc.Some? then " xsi:schemaLocation=\"" + loc.value + "\"" else ""
  }

  function AttributeText(entry: (string, string)): string {
    " " + entry.0 + "=\"" + EscapeAttribute(entry.1) + "\""
  }

  /** The attributes, in map order, values escaped. */
  function AttributesText(attrs: IndexMap.Entries<string, string>): string {
    if attrs == [] then "" else AttributesText(attrs[..|attrs| - 1]) + AttributeText(attrs[|attrs| - 1])
  }

  /** Indentation, `<` and the prefixed name. */
  function Opening(cfg: DeterminismConfig, e: Element, ns: IndexMap.Entries<string, string>, depth: nat): string {
    Indent(cfg, depth) + "<" + QName(StartPrefix(e, ns, depth), e.name)
  }

  /** What only the root's start tag carries: the namespace declarations and
      the schema location. */
  function RootDecls(ns: IndexMap.Entries<string, string>, loc: Option<string>): string {
    NamespaceDecls(ns) + SchemaLocationAttr(loc)
  }

  /** The opening, the root's declarations, the attributes. */
  function StartTag(cfg: DeterminismConfig, e: Element, ns: IndexMap.Entries<string, string>,
                    loc: Option<string>, depth: nat): string
  {
    Opening(cfg, e, ns, depth) + (if depth == 0 then RootDecls(ns, loc) else "") + AttributesText(e.attributes)
  }

  function EndTag(e: Element, ns: IndexMap.Entries<string, string>): string {
    "</" + ElementName(e, ns) + ">\n"
  }

  /** The text `write_element` appends for `e` at `depth`. */
  function ElementXml(cfg: DeterminismConfig, e: Element, ns: IndexMap.Entries<string, string>,
                      loc: Option<string>, depth: nat): string
    requires Writable(e)
    decreases e, 2
  {
    StartTag(cfg, e, ns, loc, depth) + ElementRest(cfg, e, ns, depth)
  }

  /** What follows the start tag: `/>` for no children, the escaped text and
      end tag on the same line for a single text child, otherwise one line per
      child one level deeper and the end tag on a line of its own. */
  function ElementRest(cfg: DeterminismConfig, e: Element, ns: IndexMap.Entries<string, string>,
                       depth: nat): string
    requires Writable(e)
    decreases e, 1
  {
    if |e.children| == 0 then "/>\n"
    else if |e.children| == 1 && e.children[0].TextNode? then ">" + EscapeText(e.children[0].text) + EndTag(e, ns)
    else ">\n" + ChildrenXml(cfg, e, ns, depth, |e.children|) + Indent(cfg, depth) + EndTag(e, ns)
  }

  /** The line(s) written for one child in the multi-line form. */
  function ChildXml(cfg: DeterminismConfig, e: Element, ns: IndexMap.Entries<string, string>,
                    depth: nat, i: nat): string
    requires Writable(e) && i < |e.children|
    decreases e, 0, i, 1
  {
    match e.children[i]
    case ElementNode(c) => ElementXml(cfg, c, ns, None, depth + 1)
    case TextNode(t) => Indent(cfg, depth + 1) + EscapeText(t) + "\n"
    case CommentNode(c) => Indent(cfg, depth + 1) + "<!-- " + c.content + " -->\n"
    case SimpleCommentNode(_) => assert false; ""
  }

  /** The lines written for the first `n` children of `e` in the multi-line form. */
  function ChildrenXml(cfg: DeterminismConfig, e: Element, ns: IndexMap.Entries<string, string>,
                       depth: nat, n: nat): string
    requires Writable(e) && n <= |e.children|
    decreases e, 0, n, 2
  {
    if n == 0 then "" else ChildrenXml(cfg, e, ns, depth, n - 1) + ChildXml(cfg, e, ns, depth, n - 1)
  }

  /** The whole document `write` produces. */
  function Document(cfg: DeterminismConfig, ast: Ast): string
    requires Writable(ast.root)
  {
    XML_DECLARATION + "\n" + ElementXml(cfg, ast.root, ast.namespaces, ast.schemaLocation, 0)
  }

  lemma PrefixOfConcat(a: string, b: string)
    ensures StartsWith(a + b, a)
  {
    assert (a + b)[..|a|] == a;
  }

  /** Every document begins with the declaration and a line feed, followed by
      the root's start tag. */
  lemma DocumentStart(cfg: DeterminismConfig, ast: Ast)
    requires Writable(ast.root)
    ensures StartsWith(Document(cfg, ast), XML_DECLARATION + "\n")
    ensures StartsWith(Document(cfg, ast), XML_DECLARATION + "\n" + StartTag(cfg, ast.root, ast.namespaces, ast.schemaLocation, 0))
  {
    var decl := XML_DECLARATION + "\n";
    var start := StartTag(cfg, ast.root, ast.namespaces, ast.schemaLocation, 0);
    var rest := ElementRest(cfg, ast.root, ast.namespaces, 0);
    AppendAssoc3(decl, start, rest);
    PrefixOfConcat(decl + start, rest);
    PrefixOfConcat(decl, start + rest);
  }

  /** The root's start tag is unindented and carries one declaration per
      namespace in map order, then the schema location, then the attributes. */
  lemma RootStartTag(cfg: DeterminismConfig, e: Element, ns: IndexMap.Entries<string, string>, loc: Option<string>)
    ensures StartTag(cfg, e, ns, loc, 0)
      == "<" + QName(StartPrefix(e, ns, 0), e.name) + NamespaceDecls(ns) + SchemaLocationAttr(loc) + AttributesText(e.attributes)
  {
    var opening := "<" + QName(StartPrefix(e, ns, 0), e.name);
    assert Opening(cfg, e, ns, 0) == opening by {
      assert Indent(cfg, 0) == "";
    }
    AppendAssoc3(opening, NamespaceDecls(ns), SchemaLocationAttr(loc));
  }

  /** Below the root a start tag carries no namespace declaration and no
      schema location, whatever map and location are passed down. */
  lemma NestedStartTagHasNoDecls(cfg: DeterminismConfig, e: Element, ns: IndexMap.Entries<string, string>,
                                 loc: Option<string>, depth: nat)
    requires depth > 0
    ensures StartTag(cfg, e, ns, loc, depth) == Indent(cfg, depth) + "<" + QName(StartPrefix(e, ns, depth), e.name) + AttributesText(e.attributes)
  {
  }

  /** A childless element is closed with `/>`; an element whose only child is
      text is written on one line as start tag, escaped text, end tag. */
  lemma ElementForms(cfg: DeterminismConfig, e: Element, ns: IndexMap.Entries<string, string>,
                     loc: Option<string>, depth: nat)
    requires Writable(e)
    ensures e.children == [] ==> ElementXml(cfg, e, ns, loc, depth) == StartTag(cfg, e, ns, loc, depth) + "/>\n"
    ensures (|e.children| == 1 && e.children[0].TextNode?) ==>
      ElementXml(cfg, e, ns, loc, depth) == StartTag(cfg, e, ns, loc, depth) + ">" + EscapeText(e.children[0].text) + "</" + ElementName(e, ns) + ">\n"
  {
  }

  /** A structured comment is written verbatim between `<!-- ` and ` -->`:
      the writer itself adds no escaping to its content. */
  lemma CommentVerbatim(cfg: DeterminismConfig, e: Element, ns: IndexMap.Entries<string, string>,
                        depth: nat, i: nat)
    requires Writable(e) && i < |e.children| && e.children[i].CommentNode?
    ensures ChildXml(cfg, e, ns, depth, i) == Indent(cfg, depth + 1) + "<!-- " + e.children[i].comment.content + " -->\n"
  {
  }

  /** The serialiser: holds the configuration and appends to one buffer. */
  class XmlWriter {
    const config: DeterminismConfig

    constructor (config: DeterminismConfig)
      ensures this.config == config
    {
      this.config := config;
    }

    /** `write`: the declaration line, then the root at depth 0. */
    method Write(ast: Ast) returns (xml: string)
      requires Writable(ast.root)
      ensures xml == Document(config, ast)
    {
      xml := XML_DECLARATION + "\n";
      xml := WriteElement(xml, ast.root, ast.namespaces, ast.schemaLocation, 0);
    }

    /** The start of `write_element`: indentation, prefixed name, the root's
        declarations and the attributes. */
    method WriteStartTag(buf: string, e: Element, ns: IndexMap.Entries<string, string>,
                         loc: Option<string>, depth: nat) returns (out: string)
      ensures out == buf + StartTag(config, e, ns, loc, depth)
    {
      out := WriteOpening(buf, e, ns, depth);
      ghost var decls := if depth == 0 then RootDecls(ns, loc) else "";
      if depth == 0 {
        out := WriteRootDecls(out, ns, loc);
      }
      out := WriteAttributes(out, e.attributes);
      AppendAssoc4(buf, Opening(config, e, ns, depth), decls, AttributesText(e.attributes));
    }

    /** The root's namespace declarations and its schema location. */
    method WriteRootDecls(buf: string, ns: IndexMap.Entries<string, string>, loc: Option<string>) returns (out: string)
      ensures out == buf + RootDecls(ns, loc)
    {
      out := WriteNamespaceDecls(buf, ns);
      if loc.Some? {
        out := out + " xsi:schemaLocation=\"" + loc.value + "\"";
      }
    }

    /** Indentation, `<` and the name with the prefix the start tag uses. */
    method WriteOpening(buf: string, e: Element, ns: IndexMap.Entries<string, string>, depth: nat)
      returns (out: string)
      ensures out == buf + Opening(config, e, ns, depth)
    {
      out := buf + Indent(config, depth) + "<";
      if e.namespace.Some? {
        var prefix := IndexMap.FindKeyByValue(ns, e.namespace.value);
        if prefix.Some? {
          out := out + prefix.value + ":";
        }
      } else if depth == 0 && |ns| > 0 {
        out := out + ns[0].0 + ":";
      }
      out := out + e.name;
    }

    /** The root's `xmlns:` declarations, one per entry in map order. */
    method WriteNamespaceDecls(buf: string, ns: IndexMap.Entries<string, string>) returns (out: string)
      ensures out == buf + NamespaceDecls(ns)
    {
      out := buf;
      var i := 0;
      while i < |ns|
        invariant 0 <= i <= |ns|
        invariant out == buf + NamespaceDecls(ns[..i])
      {
        assert ns[..i + 1][..i] == ns[..i];
        out := out + " xmlns:" + ns[i].0 + "=\"" + ns[i].1 + "\"";
        i := i + 1;
      }
      assert ns[..|ns|] == ns;
    }

    /** The attributes in map order, values escaped. */
    method WriteAttributes(buf: string, attrs: IndexMap.Entries<string, string>) returns (out: string)
      ensures out == buf + AttributesText(attrs)
    {
      out := buf;
      var k := 0;
      while k < |attrs|
        invariant 0 <= k <= |attrs|
        invariant out == buf + AttributesText(attrs[..k])
      {
        assert attrs[..k + 1][..k] == attrs[..k];
        assert AttributesText(attrs[..k + 1]) == AttributesText(attrs[..k]) + AttributeText(attrs[k]);
        out := out + " " + attrs[k].0 + "=\"" + EscapeAttribute(attrs[k].1) + "\"";
        k := k + 1;
      }
      assert attrs[..|attrs|] == attrs;
    }

    /** `write_element`: appends `e` at `depth` to `buf`. */
    method WriteElement(buf: string, e: Element, ns: IndexMap.Entries<string, string>,
                        loc: Option<string>, depth: nat) returns (out: string)
      requires Writable(e)
      ensures out == buf + ElementXml(config, e, ns, loc, depth)
      decreases e, 2
    {
      out := WriteStartTag(buf, e, ns, loc, depth);
      ghost var started := out;
      if |e.children| == 0 {
        out := out + "/>\n";
      } else if |e.children| == 1 && e.children[0].TextNode? {
        out := out + ">" + EscapeText(e.children[0].text) + EndTag(e, ns);
        AppendAssoc4(started, ">", EscapeText(e.children[0].text), EndTag(e, ns));
      } else {
        out := out + ">\n";
        out := WriteChildren(out, e, ns, depth);
        out := out + Indent(config, depth) + EndTag(e, ns);
        AppendAssoc5(started, ">\n", ChildrenXml(config, e, ns, depth, |e.children|), Indent(config, depth), EndTag(e, ns));
      }
      AppendAssoc3(buf, StartTag(config, e, ns, loc, depth), ElementRest(config, e, ns, depth));
    }

    /** The loop of `write_element` over the children, one level deeper. */
    method WriteChildren(buf: string, e: Element, ns: IndexMap.Entries<string, string>, depth: nat)
      returns (out: string)
      requires Writable(e)
      ensures out == buf + ChildrenXml(config, e, ns, depth, |e.children|)
      decreases e, 1
    {
      out := buf;
      var j := 0;
      while j < |e.children|
        invariant 0 <= j <= |e.children|
        invariant out == buf + ChildrenXml(config, e, ns, depth, j)
      {
        out := WriteChild(out, e, ns, depth, j);
        j := j + 1;
      }
    }

    /** One iteration of that loop: the child element one level deeper, or an
        indented line of escaped text, or an indented comment line. */
    method WriteChild(buf: string, e: Element, ns: IndexMap.Entries<string, string>, depth: nat, j: nat)
      returns (out: string)
      requires Writable(e) && j < |e.children|
      ensures out == buf + ChildXml(config, e, ns, depth, j)
      decreases e, 0
    {
      match e.children[j] {
        case ElementNode(c) =>
          out := WriteElement(buf, c, ns, None, depth + 1);
        case TextNode(t) =>
          out := buf + Indent(config, depth + 1) + EscapeText(t) + "\n";
        case CommentNode(c) =>
          out := buf + Indent(config, depth + 1) + "<!-- " + c.content + " -->\n";
      }
    }
  }
}
