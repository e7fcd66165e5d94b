/**
 * `write_wiki_page`, as the five splitting scripts write it: a navigation
 * header, the page body, and a navigation footer repeating the header's
 * navigation line. The scripts differ only in link syntax, in the name of
 * the index page, and in whether a "Part of" line names a parent page.
 */
module WikiPage {
  import opened Wrappers
  import opened Text

  /** `[label](target)` in split-pdf-spec.py; `[[target|label]]` in the other four scripts. */
  datatype LinkSyntax = Markdown | WikiLinks

  /** The per-script fixed parts of a page's decoration. */
  datatype Layout = Layout(syntax: LinkSyntax, index: string)

  /** A written wiki file: its file name and its full text. */
  datatype WikiFile = WikiFile(name: string, text: string)

  const PrevLabel: string := "← Previous"
  const NextLabel: string := "Next →"
  const NavPrefix: string := "> **Navigation**: "
  const Rule: string := "\n\n---\n\n"

  /** Python truthiness of an optional page name: `None` and `""` both count as absent. */
  predicate Truthy(page: Option<string>) {
    page.Some? && page.value != ""
  }

  function Link(syntax: LinkSyntax, target: string, caption: string): string {
    match syntax
    case Markdown => "[" + caption + "](" + target + ")"
    case WikiLinks => "[[" + target + "|" + caption + "]]"
  }

  function PrevPart(layout: Layout, prev: Option<string>): string {
    if Truthy(prev) then Link(layout.syntax, prev.value, PrevLabel) else PrevLabel
  }

  function NextPart(layout: Layout, next: Option<string>): string {
    if Truthy(next) then " | " + Link(layout.syntax, next.value, NextLabel) else " | Next →"
  }

  function IndexPart(layout: Layout): string {
    " | " + Link(layout.syntax, layout.index, "Index")
  }

  /** The navigation line shared by header and footer. */
  function NavLine(layout: Layout, prev: Option<string>, next: Option<string>): string {
    NavPrefix + PrevPart(layout, prev) + IndexPart(layout) + NextPart(layout, next)
  }

  /** The "Part of" line; split-pdf-spec.py has none. */
  function PartOfLine(parent: Option<string>): string {
    match parent
    case None => ""
    case Some(p) => "> **Part of**: [[" + p + "]]\n\n"
  }

  function TitleLine(title: string): string {
    "# " + title + "\n\n"
  }

  function Header(layout: Layout, title: string, prev: Option<string>, next: Option<string>, parent: Option<string>): string {
    TitleLine(title) + PartOfLine(parent) + NavLine(layout, prev, next) + Rule
  }

  function Footer(layout: Layout, prev: Option<string>, next: Option<string>): string {
    Rule + NavLine(layout, prev, next) + "\n"
  }

  /** The full text of a page: header, body, footer. */
  function PageText(layout: Layout, title: string, content: string,
                    prev: Option<string>, next: Option<string>, parent: Option<string>): string {
    Header(layout, title, prev, next, parent) + content + Footer(layout, prev, next)
  }

  /**
   * `write_wiki_page`: builds the header and the footer by successive
   * appends, and returns the written file together with the body's length
   * (split-pdf-spec-v2.py returns `len(content)`).
   */
  method WritePage(layout: Layout, filename: string, title: string, content: string,
                   prev: Option<string>, next: Option<string>, parent: Option<string>)
    returns (file: WikiFile, written: nat)
    ensures file.name == filename + ".md"
    ensures file.text == PageText(layout, title, content, prev, next, parent)
    ensures written == |content| && written <= |file.text|
  {
    var navHeader := BuildHeader(layout, title, prev, next, parent);
    var navFooter := BuildFooter(layout, prev, next);
    file := WikiFile(filename + ".md", navHeader + content + navFooter);
    written := |content|;
  }

  /** The header of `write_wiki_page`: title, optional "Part of" line, navigation line, rule. */
  method BuildHeader(layout: Layout, title: string, prev: Option<string>, next: Option<string>,
                     parent: Option<string>)
    returns (navHeader: string)
    ensures navHeader == Header(layout, title, prev, next, parent)
  {
    navHeader := "# " + title + "\n\n";
    if parent.Some? {
      navHeader := navHeader + "> **Part of**: [[" + parent.value + "]]\n\n";
    }
    ghost var pre := navHeader;
    assert pre == TitleLine(title) + PartOfLine(parent);
    navHeader := navHeader + "> **Navigation**: ";
    navHeader := AppendNav(pre, navHeader, NavPrefix,
                           if Truthy(prev) then Link(layout.syntax, prev.value, "← Previous") else "← Previous");
    navHeader := AppendNav(pre, navHeader, NavPrefix + PrevPart(layout, prev),
                           " | " + Link(layout.syntax, layout.index, "Index"));
    navHeader := AppendNav(pre, navHeader, NavPrefix + PrevPart(layout, prev) + IndexPart(layout),
                           if Truthy(next) then " | " + Link(layout.syntax, next.value, "Next →") else " | Next →");
    navHeader := navHeader + "\n\n---\n\n";
  }

  /** The footer of `write_wiki_page`: rule, the same navigation line, newline. */
  method BuildFooter(layout: Layout, prev: Option<string>, next: Option<string>)
    returns (navFooter: string)
    ensures navFooter == Footer(layout, prev, next)
  {
    navFooter := "\n\n---\n\n";
    navFooter := navFooter + "> **Navigation**: ";
    navFooter := AppendNav(Rule, navFooter, NavPrefix,
                           if Truthy(prev) then Link(layout.syntax, prev.value, "← Previous") else "← Previous");
    navFooter := AppendNav(Rule, navFooter, NavPrefix + PrevPart(layout, prev),
                           " | " + Link(layout.syntax, layout.index, "Index"));
    navFooter := AppendNav(Rule, navFooter, NavPrefix + PrevPart(layout, prev) + IndexPart(layout),
                           if Truthy(next) then " | " + Link(layout.syntax, next.value, "Next →") else " | Next →");
    navFooter := navFooter + "\n";
  }

  /** One `+=` on a text that is a fixed prefix followed by a growing navigation line. */
  method AppendNav(ghost pre: string, acc: string, ghost nav: string, piece: string) returns (r: string)
    requires acc == pre + nav
    ensures r == acc + piece && r == pre + (nav + piece)
  {
    r := acc + piece;
  }

  /** The footer's navigation line is, character for character, the header's. */
  lemma HeaderAndFooterShareNavLine(layout: Layout, title: string,
                                    prev: Option<string>, next: Option<string>, parent: Option<string>)
    ensures var nav := NavLine(layout, prev, next);
            var hd := Header(layout, title, prev, next, parent);
            var ft := Footer(layout, prev, next);
            var h := |TitleLine(title) + PartOfLine(parent)|;
            && h + |nav| <= |hd| && |Rule| + |nav| <= |ft|
            && hd[h..h + |nav|] == ft[|Rule|..|Rule| + |nav|] == nav
  {
  }

  /**
   * The page opens with its title heading and the navigation line, ends
   * with a newline, and holds the body unchanged between header and footer.
   */
  lemma PageLayout(layout: Layout, title: string, content: string,
                   prev: Option<string>, next: Option<string>, parent: Option<string>)
    ensures var t := PageText(layout, title, content, prev, next, parent);
            var b := |Header(layout, title, prev, next, parent)|;
            && b + |content| + |Footer(layout, prev, next)| == |t|
            && StartsWith(t, TitleLine(title) + PartOfLine(parent) + NavLine(layout, prev, next))
            && t[b..b + |content|] == content
            && t[|t| - 1] == '\n'
  {
    var hd := Header(layout, title, prev, next, parent);
    var ft := Footer(layout, prev, next);
    var pre := TitleLine(title) + PartOfLine(parent) + NavLine(layout, prev, next);
    var t := hd + content + ft;
    assert hd == pre + Rule;
    assert t[..|pre|] == pre;
  }

  /**
   * Reading the navigation line back: the character after the prefix opens
   * a link exactly when there is a previous page, and the line ends in the
   * plain arrow exactly when there is no next page.
   */
  lemma NavLineShowsNeighbours(layout: Layout, prev: Option<string>, next: Option<string>)
    ensures var nav := NavLine(layout, prev, next);
            && |nav| > |NavPrefix|
            && (nav[|NavPrefix|] == '[' <==> Truthy(prev))
            && (nav[|nav| - 1] == '→' <==> !Truthy(next))
  {
    var nav := NavLine(layout, prev, next);
    var p := PrevPart(layout, prev);
    var rest := IndexPart(layout) + NextPart(layout, next);
    assert nav == NavPrefix + (p + rest);
    assert nav[|NavPrefix|] == p[0];
    var n := NextPart(layout, next);
    assert nav[|nav| - 1] == n[|n| - 1];
  }

  /** An empty neighbour name is rendered exactly like a missing one. */
  lemma EmptyNeighbourIsAbsent(layout: Layout, prev: Option<string>, next: Option<string>)
    ensures NavLine(layout, Some(""), next) == NavLine(layout, None, next)
    ensures NavLine(layout, prev, Some("")) == NavLine(layout, prev, None)
  {
  }
}
