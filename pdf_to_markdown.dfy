/** Joining the text of a PDF's pages into one Markdown text
    (`PDFToMarkdownConverter.convert` in main.py). */
module PdfToMarkdown {
  import opened Wrappers

  /** Each page's text followed by a blank line, pages in document order. */
  function PagesText(pages: seq<string>): string
  {
    if pages == [] then ""
    else PagesText(pages[..|pages| - 1]) + pages[|pages| - 1] + "\n\n"
  }

  /** The sum of the pages' text lengths. */
  function TotalLength(pages: seq<string>): nat
  {
    if pages == [] then 0
    else TotalLength(pages[..|pages| - 1]) + |pages[|pages| - 1]|
  }

  /** The converter: `pdf` is the text of each page, or None when the file cannot
      be opened or a page's text cannot be extracted; the result is the text
      written to the Markdown file, or None when nothing is written. */
  method Convert(pdf: Option<seq<string>>) returns (markdown: Option<string>)
    ensures markdown.Some? <==> pdf.Some?
    ensures pdf.Some? ==> markdown.value == PagesText(pdf.value)
  {
    if pdf.None? {
      return None;
    }
    var pages := pdf.value;
    var text := "";
    for i := 0 to |pages|
      invariant text == PagesText(pages[..i])
    {
      text := text + pages[i] + "\n\n";
      assert pages[..i + 1][..i] == pages[..i];
    }
    assert pages[..|pages|] == pages;
    return Some(text);
  }

  /** The text is as long as all pages together plus a two-character separator
      per page. */
  lemma {:induction false} PagesTextLength(pages: seq<string>)
    ensures |PagesText(pages)| == TotalLength(pages) + 2 * |pages|
  {
    if pages != [] {
      PagesTextLength(pages[..|pages| - 1]);
    }
  }

  /** Page k's text, followed by the blank line, sits right after the blocks of
      the pages before it. */
  lemma {:induction false} PageBlock(pages: seq<string>, k: nat)
    requires k < |pages|
    ensures TotalLength(pages[..k]) + 2 * k + |pages[k]| + 2 <= |PagesText(pages)|
    ensures PagesText(pages)[TotalLength(pages[..k]) + 2 * k .. TotalLength(pages[..k]) + 2 * k + |pages[k]| + 2]
            == pages[k] + "\n\n"
  {
    var n := |pages|;
    var init := pages[..n - 1];
    PagesTextLength(init);
    if k < n - 1 {
      assert init[..k] == pages[..k];
      assert init[k] == pages[k];
      PageBlock(init, k);
      var prefix := PagesText(init);
      assert PagesText(pages) == prefix + (pages[n - 1] + "\n\n");
    } else {
      assert pages[..k] == init;
      assert PagesText(pages) == PagesText(init) + (pages[k] + "\n\n");
    }
  }
}
