/**
 * The documentation page's parser for the FAQ text: the text is cut into
 * sections at `\n---\n`; each section opens with `key: value` metadata lines
 * up to a `content:` line, and the rest is its body. The page renders a header
 * from the metadata (when the section has an id), the intent tags, and the body
 * line by line; here the rendering is a `DocSection` value instead of markup.
 */
module Docs {
  import opened JsText
  import opened Wrappers

  const SectionSeparator: string := "\n---\n"
  const ContentMarker: string := "content:"
  const UntitledSection: string := "Untitled Section"
  /** The characters `/[\[\]"]/g` strips from `intent_tags`. */
  const TagNoise: set<char> := {'[', ']', '"'}

  /** One rendered body line: `<br />` for a blank line, `<p>` for the others. */
  datatype Block = Break | Paragraph(text: string)

  datatype Header = Header(
    title: string,
    sectionId: string,
    productArea: Option<string>,
    lastUpdated: Option<string>,
    tags: Option<seq<string>>)

  datatype DocSection = DocSection(
    metadata: map<string, string>,
    header: Option<Header>,
    body: string,
    blocks: seq<Block>)

  // ---------------------------------------------------------------------------
  // Sections

  /** `.filter(section => section.trim())`, keeping the order. */
  function NonBlank(pieces: seq<string>): (kept: seq<string>)
    ensures |kept| <= |pieces|
  {
    if pieces == [] then []
    else (if Blank(pieces[0]) then [] else [pieces[0]]) + NonBlank(pieces[1..])
  }

  /** The filter keeps exactly the pieces that are not blank. */
  lemma {:induction false} NonBlankKeeps(pieces: seq<string>)
    ensures forall p :: p in NonBlank(pieces) <==> p in pieces && !Blank(p)
  {
    if pieces != [] {
      NonBlankKeeps(pieces[1..]);
      assert pieces == [pieces[0]] + pieces[1..];
    }
  }

  /** The filter keeps the relative order: it distributes over concatenation. */
  lemma {:induction false} NonBlankAppend(a: seq<string>, b: seq<string>)
    ensures NonBlank(a + b) == NonBlank(a) + NonBlank(b)
  {
    if a != [] {
      NonBlankAppend(a[1..], b);
      assert (a + b)[0] == a[0];
      assert (a + b)[1..] == a[1..] + b;
    } else {
      assert a + b == b;
    }
  }

  /**
   * The sections of the text: the pieces between `\n---\n` separators, in
   * order, without the blank ones; no section contains the separator.
   */
  function Sections(text: string): (sections: seq<string>)
    ensures forall p :: p in sections <==> p in Split(text, SectionSeparator) && !Blank(p)
    ensures forall p, k :: p in sections ==> !OccursAt(p, SectionSeparator, k)
  {
    SplitPiecesHaveNoSeparator(text, SectionSeparator);
    NonBlankKeeps(Split(text, SectionSeparator));
    NonBlank(Split(text, SectionSeparator))
  }

  // ---------------------------------------------------------------------------
  // The metadata scan

  /** The index of the first line starting with `content:`, if there is one. */
  function MarkerIndex(lines: seq<string>): (i: Option<nat>)
    ensures i.Some? ==> i.value < |lines| && StartsWith(lines[i.value], ContentMarker)
    ensures forall j :: 0 <= j < |lines| && (i.None? || j < i.value) ==> !StartsWith(lines[j], ContentMarker)
  {
    if lines == [] then None
    else if StartsWith(lines[0], ContentMarker) then Some(0)
    else
      match MarkerIndex(lines[1..])
      case None => None
      case Some(j) => Some(j + 1)
  }

  /** `contentStart` after the scan: just past the marker line, or 0 without one. */
  function ContentStart(lines: seq<string>): (start: nat)
    ensures start <= |lines|
  {
    match MarkerIndex(lines)
    case None => 0
    case Some(i) => i + 1
  }

  /** The lines the scan reads as metadata: those before the marker line. */
  function HeaderLines(lines: seq<string>): (scanned: seq<string>)
    ensures scanned <= lines
  {
    match MarkerIndex(lines)
    case None => lines
    case Some(i) => lines[..i]
  }

  /**
   * `key.trim()` for `const [key, ...valueParts] = line.split(':')`: trimmed,
   * and free of colons (`KeyValueAroundFirstColon` says which text it is).
   */
  function Key(line: string): (key: string)
    ensures key != [] ==> !IsSpace(key[0]) && !IsSpace(key[|key| - 1])
    ensures ':' !in key
  {
    var first := Split(line, ":")[0];
    SplitCharPiecesLackIt(line, ':');
    TrimDrawsFrom(first);
    Trim(first)
  }

  /** `valueParts.join(':').trim()`: trimmed (`KeyValueAroundFirstColon` says which text it is). */
  function Value(line: string): (value: string)
    ensures value != [] ==> !IsSpace(value[0]) && !IsSpace(value[|value| - 1])
  {
    Trim(Join(":", Split(line, ":")[1..]))
  }

  /**
   * The key is the trimmed text before the first colon and the value the
   * trimmed text after it, later colons included.
   */
  lemma KeyValueAroundFirstColon(line: string, i: nat)
    requires i < |line| && line[i] == ':' && ':' !in line[..i]
    ensures Key(line) == Trim(line[..i])
    ensures Value(line) == Trim(line[i + 1..])
  {
    SplitAtFirst(line, ':', i);
  }

  /** What a line before the marker contributes: its key and value, when it holds a colon. */
  function EntryOf(line: string): Option<(string, string)> {
    if ':' in line then Some((Key(line), Value(line))) else None
  }

  /**
   * The scan as a left fold, first line first: each line's entry, if it has
   * one, is written over what the earlier lines recorded. On the page `entry`
   * is `EntryOf`; as a parameter it lets the lemmas below reason about the
   * fold without unfolding the string operations.
   */
  function Collect(lines: seq<string>, entry: string -> Option<(string, string)>): map<string, string>
  {
    if lines == [] then map[]
    else
      var recorded := Collect(lines[..|lines| - 1], entry);
      match entry(lines[|lines| - 1])
      case None => recorded
      case Some(kv) => recorded[kv.0 := kv.1]
  }

  /** The metadata of a section's lines. */
  function Metadata(lines: seq<string>): map<string, string> {
    Collect(HeaderLines(lines), EntryOf)
  }

  /** Line `j` has an entry and its key is `key`. */
  predicate KeyedAt(lines: seq<string>, j: int, key: string, entry: string -> Option<(string, string)>) {
    0 <= j < |lines| && entry(lines[j]).Some? && entry(lines[j]).value.0 == key
  }

  /** A key is recorded exactly when some scanned line has an entry with that key. */
  lemma {:induction false} CollectKeys(lines: seq<string>, key: string, entry: string -> Option<(string, string)>)
    ensures key in Collect(lines, entry) <==> exists j :: KeyedAt(lines, j, key, entry)
  {
    if lines != [] {
      var init, last := lines[..|lines| - 1], lines[|lines| - 1];
      CollectKeys(init, key, entry);
      if key in Collect(lines, entry) {
        if entry(last).Some? && entry(last).value.0 == key {
          assert KeyedAt(lines, |lines| - 1, key, entry);
        } else {
          var j :| KeyedAt(init, j, key, entry);
          assert lines[j] == init[j];
          assert KeyedAt(lines, j, key, entry);
        }
      }
      if exists j :: KeyedAt(lines, j, key, entry) {
        var j :| KeyedAt(lines, j, key, entry);
        if j < |init| {
          assert init[j] == lines[j];
          assert KeyedAt(init, j, key, entry);
        }
      }
    }
  }

  /** A later line with the same key overwrites an earlier one: the last one wins. */
  lemma {:induction false} CollectLastWins(lines: seq<string>, j: nat, entry: string -> Option<(string, string)>)
    requires j < |lines| && entry(lines[j]).Some?
    requires forall l :: j < l < |lines| && entry(lines[l]).Some? ==> entry(lines[l]).value.0 != entry(lines[j]).value.0
    ensures var kv := entry(lines[j]).value; kv.0 in Collect(lines, entry) && Collect(lines, entry)[kv.0] == kv.1
  {
    if j < |lines| - 1 {
      var init := lines[..|lines| - 1];
      assert init[j] == lines[j];
      forall l | j < l < |init| && entry(init[l]).Some?
        ensures entry(init[l]).value.0 != entry(init[j]).value.0
      {
        assert init[l] == lines[l];
      }
      CollectLastWins(init, j, entry);
    }
  }

  /** One more line scanned: its entry, if any, is written over the earlier ones. */
  lemma CollectStep(lines: seq<string>, i: nat, entry: string -> Option<(string, string)>)
    requires i < |lines|
    ensures Collect(lines[..i + 1], entry) ==
      match entry(lines[i])
      case None => Collect(lines[..i], entry)
      case Some(kv) => Collect(lines[..i], entry)[kv.0 := kv.1]
  {
    assert lines[..i + 1][..i] == lines[..i] && lines[..i + 1][i] == lines[i];
  }

  /** Nothing from the marker line on contributes metadata: the lines after it may be anything. */
  lemma MetadataIgnoresBody(lines: seq<string>, rest: seq<string>)
    requires MarkerIndex(lines).Some?
    ensures var i := MarkerIndex(lines).value;
      Metadata(lines[..i + 1] + rest) == Metadata(lines) &&
      ContentStart(lines[..i + 1] + rest) == ContentStart(lines)
  {
    var i := MarkerIndex(lines).value;
    MarkerIndexKeepsPrefix(lines, rest);
    assert (lines[..i + 1] + rest)[..i] == lines[..i];
  }

  /** Replacing what follows the marker line leaves the marker where it was. */
  lemma MarkerIndexKeepsPrefix(lines: seq<string>, rest: seq<string>)
    requires MarkerIndex(lines).Some?
    ensures MarkerIndex(lines[..MarkerIndex(lines).value + 1] + rest) == MarkerIndex(lines)
  {
    var i := MarkerIndex(lines).value;
    var other := lines[..i + 1] + rest;
    assert other[i] == lines[i];
    assert forall j :: 0 <= j < i ==> other[j] == lines[j];
  }

  /**
   * The metadata loop: it stops at the first `content:` line, and records the
   * entry of every line before it. The page reads a line's entry with
   * `EntryOf` (a line holding a colon gives its trimmed key and value).
   */
  method ScanMetadata(lines: seq<string>, entry: string -> Option<(string, string)>)
    returns (metadata: map<string, string>, contentStart: nat)
    ensures metadata == Collect(HeaderLines(lines), entry) && contentStart == ContentStart(lines)
  {
    metadata := map[];
    contentStart := 0;
    for i := 0 to |lines|
      invariant metadata == Collect(lines[..i], entry)
      invariant forall j :: 0 <= j < i ==> !StartsWith(lines[j], ContentMarker)
    {
      var line := lines[i];
      if StartsWith(line, ContentMarker) {
        contentStart := i + 1;
        break;
      }
      CollectStep(lines, i, entry);
      match entry(line) {
        case Some(kv) => metadata := metadata[kv.0 := kv.1];
        case None =>
      }
    }
    assert lines[..|lines|] == lines;
  }

  // ---------------------------------------------------------------------------
  // Header, tags and body

  /** `metadata.key` used as a condition: present and not the empty string. */
  function Truthy(metadata: map<string, string>, key: string): (v: Option<string>)
    ensures v.Some? <==> key in metadata && metadata[key] != ""
    ensures v.Some? ==> v.value == metadata[key]
  {
    if key in metadata && metadata[key] != "" then Some(metadata[key]) else None
  }

  /** `pieces.map(tag => tag.trim())`. */
  function TrimEach(pieces: seq<string>): (trimmed: seq<string>)
    ensures |trimmed| == |pieces|
    ensures forall k :: 0 <= k < |pieces| ==> trimmed[k] == Trim(pieces[k])
  {
    if pieces == [] then [] else [Trim(pieces[0])] + TrimEach(pieces[1..])
  }

  /** Trimmed pieces are trimmed for good and bring no character the pieces lacked. */
  lemma {:induction false} TrimEachShape(pieces: seq<string>, absent: set<char>)
    requires forall p, x :: p in pieces && x in p ==> x !in absent
    ensures forall t :: t in TrimEach(pieces) ==> Trim(t) == t
    ensures forall t, x :: t in TrimEach(pieces) && x in t ==> x !in absent
  {
    if pieces != [] {
      TrimEachShape(pieces[1..], absent);
      TrimIdempotent(pieces[0]);
      TrimDrawsFrom(pieces[0]);
      assert pieces[0] in pieces;
      forall p | p in pieces[1..] ensures p in pieces { }
    }
  }

  /**
   * `intent_tags` with every `[`, `]` and `"` removed, split at `,`, each piece
   * trimmed: one tag more than there are commas, none holding a comma, a
   * bracket or a quote, and none with white space at either end.
   */
  function Tags(intentTags: string): (tags: seq<string>)
    ensures |tags| == Count(',', intentTags) + 1
    ensures |tags| == |Split(RemoveAll(intentTags, TagNoise), ",")|
    ensures forall k :: 0 <= k < |tags| ==> tags[k] == Trim(Split(RemoveAll(intentTags, TagNoise), ",")[k])
    ensures forall t :: t in tags ==> Trim(t) == t
    ensures forall t, x :: t in tags && x in t ==> x !in TagNoise + {','}
  {
    var cleaned := RemoveAll(intentTags, TagNoise);
    var pieces := Split(cleaned, ",");
    SplitCharCount(cleaned, ',');
    SplitPiecesDrawFrom(cleaned, ",");
    SplitCharPiecesLackIt(cleaned, ',');
    TrimEachShape(pieces, TagNoise + {','});
    TrimEach(pieces)
  }

  /**
   * The header: present exactly when `section_id` is set and non-empty; its
   * title is `section`, or "Untitled Section" when that is missing or empty, so
   * never empty; the other items appear only when their key is set.
   */
  function HeaderOf(metadata: map<string, string>): (header: Option<Header>)
    ensures header.Some? <==> Truthy(metadata, "section_id").Some?
    ensures header.Some? ==> header.value.sectionId == metadata["section_id"] != ""
    ensures header.Some? ==>
      header.value.title == (if Truthy(metadata, "section").Some? then metadata["section"] else UntitledSection)
    ensures header.Some? ==> header.value.title != ""
    ensures header.Some? ==> header.value.productArea == Truthy(metadata, "product_area")
    ensures header.Some? ==> header.value.lastUpdated == Truthy(metadata, "last_updated")
    ensures header.Some? ==> (header.value.tags.Some? <==> Truthy(metadata, "intent_tags").Some?)
    ensures header.Some? && header.value.tags.Some? ==> header.value.tags.value == Tags(metadata["intent_tags"])
  {
    match Truthy(metadata, "section_id")
    case None => None
    case Some(id) =>
      var title := match Truthy(metadata, "section") case Some(s) => s case None => UntitledSection;
      var tags := match Truthy(metadata, "intent_tags") case Some(t) => Some(Tags(t)) case None => None;
      Some(Header(title, id, Truthy(metadata, "product_area"), Truthy(metadata, "last_updated"), tags))
  }

  /**
   * The body lines after the scan, rejoined with `\n` and trimmed: trimming it
   * again changes nothing (`BodyOfSection` says which text it is).
   */
  function Body(lines: seq<string>): (body: string)
    ensures body != [] ==> !IsSpace(body[0]) && !IsSpace(body[|body| - 1])
  {
    Trim(Join("\n", lines[ContentStart(lines)..]))
  }

  /**
   * The body is what follows the marker line (the marker line itself, and any
   * text after `content:` on it, excluded); with no marker it is the whole
   * section, trimmed.
   */
  lemma BodyOfSection(section: string)
    ensures var lines := Split(section, "\n");
      match MarkerIndex(lines)
      case None => Body(lines) == Trim(section)
      case Some(i) => Body(lines) == Trim(Join("\n", lines[i + 1..]))
  {
    JoinSplit(section, "\n");
    assert Split(section, "\n")[0..] == Split(section, "\n");
  }

  /** How one body line renders. */
  function BlockOf(line: string): Block {
    if Blank(line) then Break else Paragraph(Trim(line))
  }

  /** `lines.map(...)` over the body lines. */
  function BlocksOf(lines: seq<string>): (blocks: seq<Block>)
    ensures |blocks| == |lines|
    ensures forall k :: 0 <= k < |lines| ==>
      blocks[k] == if Blank(lines[k]) then Break else Paragraph(Trim(lines[k]))
  {
    if lines == [] then [] else [BlockOf(lines[0])] + BlocksOf(lines[1..])
  }

  /** Paragraphs are non-empty, trimmed, and hold no line break when the lines hold none. */
  lemma {:induction false} BlocksOfShape(lines: seq<string>)
    requires forall l :: l in lines ==> '\n' !in l
    ensures forall b :: b in BlocksOf(lines) && b.Paragraph? ==>
      b.text != [] && Trim(b.text) == b.text && '\n' !in b.text
  {
    if lines != [] {
      BlocksOfShape(lines[1..]);
      TrimIdempotent(lines[0]);
      TrimDrawsFrom(lines[0]);
      assert lines[0] in lines;
      forall l | l in lines[1..] ensures l in lines { }
    }
  }

  /**
   * `content.split('\n')` rendered: one block per line, so one more than the
   * body has line breaks; a blank line becomes a `Break`, any other line a
   * paragraph of its trimmed text.
   */
  function Blocks(body: string): (blocks: seq<Block>)
    ensures |blocks| == Count('\n', body) + 1
    ensures |blocks| == |Split(body, "\n")|
    ensures forall k :: 0 <= k < |blocks| ==>
      var line := Split(body, "\n")[k];
      blocks[k] == if Blank(line) then Break else Paragraph(Trim(line))
    ensures forall b :: b in blocks && b.Paragraph? ==> b.text != [] && Trim(b.text) == b.text && '\n' !in b.text
  {
    var lines := Split(body, "\n");
    SplitCharCount(body, '\n');
    SplitCharPiecesLackIt(body, '\n');
    BlocksOfShape(lines);
    BlocksOf(lines)
  }

  /** One section, as the page renders it. */
  function Section(section: string): DocSection {
    var lines := Split(section, "\n");
    var metadata := Metadata(lines);
    var body := Body(lines);
    DocSection(metadata, HeaderOf(metadata), body, Blocks(body))
  }

  /** The callback of `sections.map(...)`: the metadata loop, then the pure steps. */
  method FormatSection(section: string) returns (doc: DocSection)
    ensures doc == Section(section)
  {
    var lines := Split(section, "\n");
    var metadata, contentStart := ScanMetadata(lines, EntryOf);
    var body := Trim(Join("\n", lines[contentStart..]));
    doc := DocSection(metadata, HeaderOf(metadata), body, Blocks(body));
  }

  /** `sections.map(...)`: each section rendered, in order. */
  function RenderAll(sections: seq<string>): (docs: seq<DocSection>)
    ensures |docs| == |sections|
  {
    if sections == [] then [] else RenderAll(sections[..|sections| - 1]) + [Section(sections[|sections| - 1])]
  }

  /** Rendering one more section appends its rendering. */
  lemma RenderAllSnoc(sections: seq<string>, i: nat)
    requires i < |sections|
    ensures RenderAll(sections[..i + 1]) == RenderAll(sections[..i]) + [Section(sections[i])]
  {
    assert sections[..i + 1][..i] == sections[..i];
  }

  /** The `i`-th rendered section is the `i`-th section rendered. */
  lemma {:induction false} RenderAllAt(sections: seq<string>, i: nat)
    requires i < |sections|
    ensures RenderAll(sections)[i] == Section(sections[i])
  {
    if i < |sections| - 1 {
      var init := sections[..|sections| - 1];
      RenderAllAt(init, i);
      assert init[i] == sections[i];
    }
  }

  /** `formatContent`: every non-blank section, in order. */
  method FormatContent(text: string) returns (docs: seq<DocSection>)
    ensures docs == RenderAll(Sections(text))
  {
    var sections := Sections(text);
    docs := [];
    for i := 0 to |sections|
      invariant docs == RenderAll(sections[..i])
    {
      var doc := FormatSection(sections[i]);
      RenderAllSnoc(sections, i);
      docs := docs + [doc];
    }
    assert sections[..|sections|] == sections;
  }
}
