/**
 * `DataExporter.export_to_csv`: the rows it hands to the CSV writer. One document-info
 * row comes first, carrying the counts, then one row per header, tag, keyword and todo,
 * in that order, each with the document format and blank count columns.
 */
module Exporter {
  import opened Wrappers
  import opened Text
  import Parser

  /** The `type` column. */
  datatype Kind = DocumentInfo | Header | Tag | Keyword | Todo
  {
    function Name(): string
    {
      match this
      case DocumentInfo => "document_info"
      case Header => "header"
      case Tag => "tag"
      case Keyword => "keyword"
      case Todo => "todo"
    }
  }

  /** A cell: a column the row's dictionary lacks, the empty string, a number or a text. */
  datatype Cell = Absent | Blank | Num(n: int) | Text(s: string)

  /** One row dictionary; the info row has no `level` and no `content` key. */
  datatype Row = Row(kind: Kind, format: string, level: Cell, content: Cell,
                     contentWords: Cell, contentLines: Cell,
                     headerCount: Cell, tagCount: Cell, keywordCount: Cell, todoCount: Cell)
  {
    predicate CountsBlank()
    {
      contentWords == Blank && contentLines == Blank && headerCount == Blank
      && tagCount == Blank && keywordCount == Blank && todoCount == Blank
    }
  }

  /**
   * The `parsed_data` dictionary, one optional entry per key the exporter reads.
   * `tags` is given in the order the exporter iterates over it.
   */
  datatype ParsedData = ParsedData(format: Option<string>, content: Option<string>,
                                   headers: Option<seq<(int, string)>>, tags: Option<seq<string>>,
                                   keywords: Option<seq<string>>, todos: Option<seq<string>>)
  {
    /** `parsed_data.get(key, default)` for each key. */
    function Format(): string { format.UnwrapOr("") }
    function Content(): string { content.UnwrapOr("") }
    function Headers(): seq<(int, string)> { headers.UnwrapOr([]) }
    function Tags(): seq<string> { tags.UnwrapOr([]) }
    function Keywords(): seq<string> { keywords.UnwrapOr([]) }
    function Todos(): seq<string> { todos.UnwrapOr([]) }
  }

  function InfoRow(data: ParsedData): Row
  {
    Row(DocumentInfo, data.Format(), Absent, Absent,
        Num(|SplitWhitespace(data.Content())|), Num(|Lines(data.Content())|),
        Num(|data.Headers()|), Num(|data.Tags()|), Num(|data.Keywords()|), Num(|data.Todos()|))
  }

  function HeaderRow(format: string, header: (int, string)): Row
  {
    Row(Header, format, Num(header.0), Text(header.1), Blank, Blank, Blank, Blank, Blank, Blank)
  }

  function ItemRow(kind: Kind, format: string, item: string): Row
  {
    Row(kind, format, Blank, Text(item), Blank, Blank, Blank, Blank, Blank, Blank)
  }

  function HeaderRows(format: string, headers: seq<(int, string)>): seq<Row>
  {
    seq(|headers|, j requires 0 <= j < |headers| => HeaderRow(format, headers[j]))
  }

  function ItemRows(kind: Kind, format: string, items: seq<string>): seq<Row>
  {
    seq(|items|, j requires 0 <= j < |items| => ItemRow(kind, format, items[j]))
  }

  /** The rows `export_to_csv` builds, section by section. */
  function CsvRows(data: ParsedData): seq<Row>
  {
    [InfoRow(data)] + HeaderRows(data.Format(), data.Headers())
    + ItemRows(Tag, data.Format(), data.Tags()) + ItemRows(Keyword, data.Format(), data.Keywords())
    + ItemRows(Todo, data.Format(), data.Todos())
  }

  /** One of the tag, keyword and todo loops: one row per item, appended in order. */
  method AppendItems(rows: seq<Row>, kind: Kind, format: string, items: seq<string>) returns (r: seq<Row>)
    ensures r == rows + ItemRows(kind, format, items)
  {
    r := rows;
    for i := 0 to |items|
      invariant |r| == |rows| + i
      invariant forall k :: 0 <= k < |rows| ==> r[k] == rows[k]
      invariant forall j :: 0 <= j < i ==> r[|rows| + j] == ItemRow(kind, format, items[j])
    {
      r := r + [ItemRow(kind, format, items[i])];
    }
  }

  /** The header loop: one row per `(level, title)` pair, appended in order. */
  method AppendHeaders(rows: seq<Row>, format: string, headers: seq<(int, string)>) returns (r: seq<Row>)
    ensures r == rows + HeaderRows(format, headers)
  {
    r := rows;
    for i := 0 to |headers|
      invariant |r| == |rows| + i
      invariant forall k :: 0 <= k < |rows| ==> r[k] == rows[k]
      invariant forall j :: 0 <= j < i ==> r[|rows| + j] == HeaderRow(format, headers[j])
    {
      r := r + [HeaderRow(format, headers[i])];
    }
  }

  /** `export_to_csv` up to the hand-off to the CSV writer. */
  method ExportRows(data: ParsedData) returns (rows: seq<Row>)
    ensures rows == CsvRows(data)
  {
    rows := [InfoRow(data)];
    rows := AppendHeaders(rows, data.Format(), data.Headers());
    rows := AppendItems(rows, Tag, data.Format(), data.Tags());
    rows := AppendItems(rows, Keyword, data.Format(), data.Keywords());
    rows := AppendItems(rows, Todo, data.Format(), data.Todos());
  }

  // ---------------------------------------------------------------- properties

  /** How many rows of `kind` there are. */
  function CountKind(rows: seq<Row>, kind: Kind): (n: nat)
    ensures n <= |rows|
  {
    if rows == [] then 0
    else (if rows[0].kind == kind then 1 else 0) + CountKind(rows[1..], kind)
  }

  lemma {:induction false} CountKindAppend(a: seq<Row>, b: seq<Row>, kind: Kind)
    ensures CountKind(a + b, kind) == CountKind(a, kind) + CountKind(b, kind)
  {
    if a == [] {
      assert a + b == b;
    } else {
      assert (a + b)[1..] == a[1..] + b;
      CountKindAppend(a[1..], b, kind);
    }
  }

  /** Counting the rows of one kind among rows that all have kind `k`. */
  lemma {:induction false} CountUniform(rows: seq<Row>, k: Kind, kind: Kind)
    requires forall i :: 0 <= i < |rows| ==> rows[i].kind == k
    ensures CountKind(rows, kind) == if k == kind then |rows| else 0
  {
    if rows != [] {
      CountUniform(rows[1..], k, kind);
    }
  }

  /** Row layout: one info row, then the sections in order, all with the document's format. */
  lemma RowsLayout(data: ParsedData)
    ensures |CsvRows(data)| == 1 + |data.Headers()| + |data.Tags()| + |data.Keywords()| + |data.Todos()|
    ensures CsvRows(data)[0].kind == DocumentInfo
    ensures forall i :: 0 <= i < |CsvRows(data)| ==> CsvRows(data)[i].format == data.Format()
    ensures forall i :: 1 <= i < |CsvRows(data)| ==> CsvRows(data)[i].CountsBlank() && CsvRows(data)[i].kind != DocumentInfo
  {
  }

  /** The info row counts the words and lines of the content and the items of each section. */
  lemma InfoRowCounts(data: ParsedData)
    ensures var r, c := CsvRows(data)[0], data.Content();
      && r.contentWords == Num(|SplitWhitespace(c)|) && r.contentLines == Num(|Lines(c)|)
      && r.headerCount == Num(|data.Headers()|) && r.tagCount == Num(|data.Tags()|)
      && r.keywordCount == Num(|data.Keywords()|) && r.todoCount == Num(|data.Todos()|)
      && r.level == Absent && r.content == Absent
  {
  }

  /** Each header row carries its level and title, in the order of the headers. */
  lemma HeaderRowsInOrder(data: ParsedData)
    ensures var rows, hs := CsvRows(data), data.Headers();
      forall j :: 0 <= j < |hs| ==>
        rows[1 + j].kind == Header && rows[1 + j].level == Num(hs[j].0) && rows[1 + j].content == Text(hs[j].1)
  {
    var f := data.Format();
    var h := HeaderRows(f, data.Headers());
    var post := ItemRows(Tag, f, data.Tags()) + ItemRows(Keyword, f, data.Keywords()) + ItemRows(Todo, f, data.Todos());
    assert CsvRows(data) == [InfoRow(data)] + h + post;
  }

  /** Each tag row carries its tag, in the order the tags are listed. */
  lemma TagRowsInOrder(data: ParsedData)
    ensures var rows, o := CsvRows(data), 1 + |data.Headers()|;
      forall j :: 0 <= j < |data.Tags()| ==>
        rows[o + j].kind == Tag && rows[o + j].content == Text(data.Tags()[j]) && rows[o + j].level == Blank
  {
    var f := data.Format();
    var pre := [InfoRow(data)] + HeaderRows(f, data.Headers());
    var post := ItemRows(Keyword, f, data.Keywords()) + ItemRows(Todo, f, data.Todos());
    assert CsvRows(data) == pre + ItemRows(Tag, f, data.Tags()) + post;
  }

  /** Each keyword row carries its keyword, in order. */
  lemma KeywordRowsInOrder(data: ParsedData)
    ensures var rows, o := CsvRows(data), 1 + |data.Headers()| + |data.Tags()|;
      forall j :: 0 <= j < |data.Keywords()| ==>
        rows[o + j].kind == Keyword && rows[o + j].content == Text(data.Keywords()[j]) && rows[o + j].level == Blank
  {
    var f := data.Format();
    var pre := [InfoRow(data)] + HeaderRows(f, data.Headers()) + ItemRows(Tag, f, data.Tags());
    var post := ItemRows(Todo, f, data.Todos());
    assert CsvRows(data) == pre + ItemRows(Keyword, f, data.Keywords()) + post;
  }

  /** Each todo row carries its todo, in order; they are the last rows. */
  lemma TodoRowsInOrder(data: ParsedData)
    ensures var rows, o := CsvRows(data), 1 + |data.Headers()| + |data.Tags()| + |data.Keywords()|;
      forall j :: 0 <= j < |data.Todos()| ==>
        rows[o + j].kind == Todo && rows[o + j].content == Text(data.Todos()[j]) && rows[o + j].level == Blank
  {
    var f := data.Format();
    var pre := [InfoRow(data)] + HeaderRows(f, data.Headers()) + ItemRows(Tag, f, data.Tags())
      + ItemRows(Keyword, f, data.Keywords());
    assert CsvRows(data) == pre + ItemRows(Todo, f, data.Todos());
  }

  /** The number of items of each section that becomes a row of `kind`. */
  function SectionSize(data: ParsedData, kind: Kind): nat
  {
    match kind
    case DocumentInfo => 1
    case Header => |data.Headers()|
    case Tag => |data.Tags()|
    case Keyword => |data.Keywords()|
    case Todo => |data.Todos()|
  }

  /** Each kind of row appears once per item of its own section and nowhere else. */
  lemma RowsOfKind(data: ParsedData, kind: Kind)
    ensures CountKind(CsvRows(data), kind) == SectionSize(data, kind)
  {
    var f := data.Format();
    var i := [InfoRow(data)];
    var h := HeaderRows(f, data.Headers());
    var t := ItemRows(Tag, f, data.Tags());
    var k := ItemRows(Keyword, f, data.Keywords());
    var d := ItemRows(Todo, f, data.Todos());
    assert CsvRows(data) == (((i + h) + t) + k) + d;
    CountKindAppend(((i + h) + t) + k, d, kind);
    CountKindAppend((i + h) + t, k, kind);
    CountKindAppend(i + h, t, kind);
    CountKindAppend(i, h, kind);
    CountUniform(i, DocumentInfo, kind);
    CountUniform(h, Header, kind);
    CountUniform(t, Tag, kind);
    CountUniform(k, Keyword, kind);
    CountUniform(d, Todo, kind);
  }

  /**
   * The counts in the info row agree with the rows that follow it: as many header,
   * tag, keyword and todo rows as the info row announces.
   */
  lemma CountsMatchRows(data: ParsedData)
    ensures CsvRows(data)[0].headerCount == Num(CountKind(CsvRows(data), Header))
    ensures CsvRows(data)[0].tagCount == Num(CountKind(CsvRows(data), Tag))
    ensures CsvRows(data)[0].keywordCount == Num(CountKind(CsvRows(data), Keyword))
    ensures CsvRows(data)[0].todoCount == Num(CountKind(CsvRows(data), Todo))
  {
    RowsOfKind(data, Header);
    RowsOfKind(data, Tag);
    RowsOfKind(data, Keyword);
    RowsOfKind(data, Todo);
  }

  // ---------------------------------------------------------------- parsed notes

  predicate Distinct(s: seq<string>)
  {
    forall i, j :: 0 <= i < j < |s| ==> s[i] != s[j]
  }

  /** A list without repeats has as many elements as its set. */
  lemma {:induction false} DistinctCard(s: seq<string>)
    requires Distinct(s)
    ensures |set x | x in s| == |s|
  {
    if s != [] {
      DistinctCard(s[1..]);
      assert (set x | x in s) == {s[0]} + (set x | x in s[1..]);
      assert s[0] !in (set x | x in s[1..]);
    }
  }

  /**
   * The dictionary the parser returns for `note`, with its tag set listed in the order
   * `tagOrder` (each tag once).
   */
  function NoteData(note: Parser.Note, tagOrder: seq<string>): ParsedData
  {
    ParsedData(Some(note.Format()), Some(note.content),
               if note.MarkdownNote? then Some(note.headers) else None,
               Some(tagOrder), None, Some(note.todos))
  }

  /**
   * Exporting a parsed note: the info row counts its headers (none for a text note),
   * its distinct tags, no keywords (the parser never extracts any) and its todos.
   */
  lemma ExportedNoteCounts(note: Parser.Note, tagOrder: seq<string>)
    requires Distinct(tagOrder) && (set x | x in tagOrder) == note.tags
    ensures CsvRows(NoteData(note, tagOrder))[0].headerCount == Num(if note.MarkdownNote? then |note.headers| else 0)
    ensures CsvRows(NoteData(note, tagOrder))[0].tagCount == Num(|note.tags|)
    ensures CsvRows(NoteData(note, tagOrder))[0].keywordCount == Num(0)
    ensures CsvRows(NoteData(note, tagOrder))[0].todoCount == Num(|note.todos|)
    ensures CountKind(CsvRows(NoteData(note, tagOrder)), Keyword) == 0
  {
    DistinctCard(tagOrder);
    CountsMatchRows(NoteData(note, tagOrder));
  }
}
