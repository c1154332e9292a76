/**
 * How `DocumentTools.create_word_document` lays out text content
 * (atlas.py:1268-1279): each line of the text becomes a heading of level
 * one to three (`# `, `## `, `### `), a bullet (`- `), a paragraph, or
 * nothing when it is blank. Writing the document (python-docx) is outside
 * this model.
 */
module DocumentTools {
  import opened Text

  datatype Block = Heading(level: nat, text: string) | Bullet(text: string) | Paragraph(text: string) | Blank

  /** The markup each kind of block is written with. */
  function Marker(b: Block): string
    requires !b.Blank?
  {
    match b
    case Heading(level, _) => if level == 1 then "# " else if level == 2 then "## " else "### "
    case Bullet(_) => "- "
    case Paragraph(_) => ""
  }

  /** The first test that matches decides; a line that strips to nothing
      gives no block. */
  function ClassifyLine(line: string): (b: Block)
    ensures b.Heading? ==> 1 <= b.level <= 3
    ensures !b.Blank? ==> line == Marker(b) + b.text
  {
    if "# " <= line then Heading(1, line[2..])
    else if "## " <= line then Heading(2, line[3..])
    else if "### " <= line then Heading(3, line[4..])
    else if "- " <= line then Bullet(line[2..])
    else if Strip(line) != [] then Paragraph(line)
    else Blank
  }

  /** Exactly the lines that strip to nothing are left out of the document. */
  lemma BlankIff(line: string)
    ensures ClassifyLine(line).Blank? <==> Strip(line) == []
  {
    if "# " <= line || "## " <= line || "### " <= line || "- " <= line {
      StripKeepsFirst(line);
    }
  }

  /** A line starting with a character that is not whitespace does not strip to nothing. */
  lemma StripKeepsFirst(s: string)
    requires s != [] && !IsSpace(s[0])
    ensures Strip(s) != []
  {
    assert SkipSpace(s, 0) == 0;
    assert s[0..] == s;
  }

  /** `content.split("\n")`, line by line. */
  function Blocks(content: string): (bs: seq<Block>)
    ensures |bs| == Count(content, '\n') + 1
  {
    var lines := Split(content, '\n');
    seq(|lines|, k requires 0 <= k < |lines| => ClassifyLine(lines[k]))
  }

  /** The document is read line by line: the blocks of two pieces joined by
      a newline are those of the first piece followed by those of the second. */
  lemma BlocksConcat(a: string, b: string)
    ensures Blocks(a + "\n" + b) == Blocks(a) + Blocks(b)
  {
    assert a + "\n" + b == a + ['\n'] + b;
    SplitConcat(a, b, '\n');
  }

  /** A single line gives exactly its own block. */
  lemma BlocksOneLine(line: string)
    requires '\n' !in line
    ensures Blocks(line) == [ClassifyLine(line)]
  {
    SplitNoSep(line, '\n');
  }

  /** Writing a block with its markup and reading the line back gives the
      block again, for every block a line can produce. */
  lemma ClassifyMarked(b: Block)
    requires b.Heading? ==> 1 <= b.level <= 3
    requires b.Paragraph? ==> Strip(b.text) != [] && !("# " <= b.text) && !("## " <= b.text)
                              && !("### " <= b.text) && !("- " <= b.text)
    requires !b.Blank?
    ensures ClassifyLine(Marker(b) + b.text) == b
  {
    match b
    case Heading(level, t) => ClassifyHeading(level, t);
    case Bullet(t) => ClassifyBullet(t);
    case Paragraph(t) => ClassifyParagraph(t);
  }

  lemma ClassifyBullet(t: string)
    ensures ClassifyLine("- " + t) == Bullet(t)
  {
    var line := "- " + t;
    assert line[0] == '-';
    assert !("# " <= line) && !("## " <= line) && !("### " <= line) && "- " <= line;
    assert line[2..] == t;
  }

  lemma ClassifyParagraph(t: string)
    requires Strip(t) != [] && !("# " <= t) && !("## " <= t) && !("### " <= t) && !("- " <= t)
    ensures ClassifyLine("" + t) == Paragraph(t)
  {
    assert "" + t == t;
  }

  lemma ClassifyHeading(level: nat, t: string)
    requires 1 <= level <= 3
    ensures ClassifyLine(Marker(Heading(level, t)) + t) == Heading(level, t)
  {
    var line := Marker(Heading(level, t)) + t;
    if level == 1 {
      assert line[..2] == "# ";
    } else if level == 2 {
      assert line[..3] == "## " && line[1] != ' ';
    } else {
      assert line[..4] == "### " && line[1] != ' ' && line[2] != ' ';
    }
  }
}
