/**
 * Digest assembly (index.py, the script code after collection): one Markdown
 * section per record, numbered from 1 in input order, the sections joined by
 * newlines, and the instruction prompt, which names the repository's issue
 * list, put in front.
 */
module Digest {
  import opened Wrappers
  import opened Strings
  import opened Fetcher

  const LABEL_LEAD := "## Issue "
  const TITLE_LEAD := "\n**Title**: "
  const BODY_LEAD := "\n\n**Body**:\n"
  const URL_LEAD := "\n\n**URL**: "
  const SECTION_END := "\n---\n"

  /** How an f-string renders a field: `null` prints as `None`. */
  function Show(v: JsonText): string
  {
    match v
    case Null => "None"
    case Text(s) => s
  }

  /**
   * The Markdown section for record `rec` under number `i`: the label line,
   * the title line, a blank line, the body under its heading, a blank line,
   * the url line and a `---` line.
   */
  function Section(i: nat, rec: IssueRecord): string
  {
    SectionHead(i) + Show(rec.title) + SectionTail(rec)
  }

  function SectionHead(i: nat): string
  {
    LABEL_LEAD + Decimal(i) + TITLE_LEAD
  }

  function SectionTail(rec: IssueRecord): string
  {
    BODY_LEAD + rec.body + SectionFooter(rec)
  }

  function SectionFooter(rec: IssueRecord): string
  {
    URL_LEAD + Show(rec.url) + SECTION_END
  }

  /** The number a section is labelled with: the numeral after `## Issue `. */
  function LabelOf(s: string): Option<nat>
  {
    if |s| >= |LABEL_LEAD| && s[..|LABEL_LEAD|] == LABEL_LEAD then
      var t := s[|LABEL_LEAD|..];
      var k := DigitRun(t);
      if k > 0 then Some(ParseDigits(t[..k])) else None
    else None
  }

  /** Where the title, body and url begin inside `Section(i, rec)`. */
  function TitleAt(i: nat): nat
  {
    |SectionHead(i)|
  }

  function BodyAt(i: nat, rec: IssueRecord): nat
  {
    TitleAt(i) + |Show(rec.title)| + |BODY_LEAD|
  }

  function UrlAt(i: nat, rec: IssueRecord): nat
  {
    BodyAt(i, rec) + |rec.body| + |URL_LEAD|
  }

  /** A label followed by a numeral and then a non-digit reads back as that numeral's number. */
  lemma LabelOfNumeral(d: string, rest: string)
    requires d != [] && forall k :: 0 <= k < |d| ==> IsDigit(d[k])
    requires rest != [] && !IsDigit(rest[0])
    ensures LabelOf(LABEL_LEAD + (d + rest)) == Some(ParseDigits(d))
  {
    SplitAt(LABEL_LEAD, d + rest);
    DigitRunOfNumeral(d, rest);
    SplitAt(d, rest);
  }

  /** A section is labelled with its own number. */
  lemma SectionLabel(i: nat, rec: IssueRecord)
    ensures LabelOf(Section(i, rec)) == Some(i)
  {
    var rest := TITLE_LEAD + Show(rec.title) + SectionTail(rec);
    assert Section(i, rec) == LABEL_LEAD + (Decimal(i) + rest);
    assert rest[0] == TITLE_LEAD[0];
    LabelOfNumeral(Decimal(i), rest);
    ParseDecimal(i);
  }

  /**
   * A section opens with its head (the `## Issue {i}` line and the
   * `**Title**: ` lead) and holds the record's title right after it.
   */
  lemma SectionTitle(i: nat, rec: IssueRecord)
    ensures TitleAt(i) + |Show(rec.title)| <= |Section(i, rec)|
    ensures Section(i, rec)[..TitleAt(i)] == SectionHead(i)
    ensures Section(i, rec)[TitleAt(i)..TitleAt(i) + |Show(rec.title)|] == Show(rec.title)
  {
    SliceMiddle(SectionHead(i), Show(rec.title), SectionTail(rec));
    assert Section(i, rec) == SectionHead(i) + (Show(rec.title) + SectionTail(rec));
    SplitAt(SectionHead(i), Show(rec.title) + SectionTail(rec));
  }

  /** A section holds the `**Body**:` heading after the title, and the record's body after it. */
  lemma SectionBody(i: nat, rec: IssueRecord)
    ensures TitleAt(i) + |Show(rec.title)| < BodyAt(i, rec)
    ensures BodyAt(i, rec) + |rec.body| <= |Section(i, rec)|
    ensures Section(i, rec)[TitleAt(i) + |Show(rec.title)|..BodyAt(i, rec)] == BODY_LEAD
    ensures Section(i, rec)[BodyAt(i, rec)..BodyAt(i, rec) + |rec.body|] == rec.body
  {
    var front, tail := SectionHead(i) + Show(rec.title), SectionTail(rec);
    SliceRight(front, tail, |BODY_LEAD|, |BODY_LEAD| + |rec.body|);
    SliceMiddle(BODY_LEAD, rec.body, SectionFooter(rec));
    SliceRight(front, tail, 0, |BODY_LEAD|);
    SliceLeft(BODY_LEAD + rec.body, SectionFooter(rec), 0, |BODY_LEAD|);
    SliceLeft(BODY_LEAD, rec.body, 0, |BODY_LEAD|);
  }

  /** A section holds the `**URL**: ` lead after the body, then the record's url, followed only by the closing `---` line. */
  lemma SectionUrl(i: nat, rec: IssueRecord)
    ensures BodyAt(i, rec) + |rec.body| < UrlAt(i, rec)
    ensures UrlAt(i, rec) + |Show(rec.url)| + |SECTION_END| == |Section(i, rec)|
    ensures Section(i, rec)[BodyAt(i, rec) + |rec.body|..UrlAt(i, rec)] == URL_LEAD
    ensures Section(i, rec)[UrlAt(i, rec)..UrlAt(i, rec) + |Show(rec.url)|] == Show(rec.url)
  {
    var front, mid, footer := SectionHead(i) + Show(rec.title) + BODY_LEAD + rec.body, URL_LEAD, Show(rec.url) + SECTION_END;
    assert Section(i, rec) == front + mid + footer by {
      assert Section(i, rec) == (SectionHead(i) + Show(rec.title)) + (BODY_LEAD + rec.body + (URL_LEAD + Show(rec.url) + SECTION_END));
    }
    assert front + mid + footer == front + mid + Show(rec.url) + SECTION_END;
    SliceMiddle(front + mid, Show(rec.url), SECTION_END);
    SliceMiddle(front, mid, footer);
  }

  /** A section ends in a `---` line. */
  lemma SectionEnd(i: nat, rec: IssueRecord)
    ensures |SECTION_END| <= |Section(i, rec)|
    ensures Section(i, rec)[|Section(i, rec)| - |SECTION_END|..] == SECTION_END
  {
    var front := SectionHead(i) + Show(rec.title) + BODY_LEAD + rec.body + URL_LEAD + Show(rec.url);
    assert Section(i, rec) == front + SECTION_END by {
      assert Section(i, rec) == (SectionHead(i) + Show(rec.title)) + (BODY_LEAD + rec.body + (URL_LEAD + Show(rec.url) + SECTION_END));
    }
    SplitAt(front, SECTION_END);
  }

  /** The sections of all records, numbered from 1 (`enumerate(issues, 1)`). */
  function Sections(issues: seq<IssueRecord>): (r: seq<string>)
    ensures |r| == |issues|
  {
    seq(|issues|, k requires 0 <= k < |issues| => Section(k + 1, issues[k]))
  }

  /** Exactly one section per record, the k-th (from 0) labelled `k + 1` and built from the k-th record. */
  lemma SectionsNumbered(issues: seq<IssueRecord>, k: nat)
    requires k < |issues|
    ensures Sections(issues)[k] == Section(k + 1, issues[k])
    ensures LabelOf(Sections(issues)[k]) == Some(k + 1)
  {
    assert Sections(issues)[k] == Section(k + 1, issues[k]);
    SectionLabel(k + 1, issues[k]);
  }

  /** `"\n".join(markdown_list)`. */
  function MarkdownText(issues: seq<IssueRecord>): string
  {
    Join("\n", Sections(issues))
  }

  /** The fixed wording of the instruction prompt, before and after the issue-list url. */
  datatype PromptTemplate = PromptTemplate(before: string, after: string)

  function RepoIssuesUrl(repo: string): string
  {
    "https://github.com/" + repo + "/issues"
  }

  /** The prompt, whose only input is the repository id. */
  function Prompt(template: PromptTemplate, repo: string): string
  {
    template.before + RepoIssuesUrl(repo) + template.after
  }

  /** The prompt names the repository's issue list, right after the template's opening wording. */
  lemma PromptNamesRepo(template: PromptTemplate, repo: string)
    ensures var at := |template.before|;
      at + |RepoIssuesUrl(repo)| <= |Prompt(template, repo)| &&
      Prompt(template, repo)[at..at + |RepoIssuesUrl(repo)|] == RepoIssuesUrl(repo)
  {
    SliceMiddle(template.before, RepoIssuesUrl(repo), template.after);
  }

  /** `prompt + "\n\n" + markdown_text`. */
  function Combined(template: PromptTemplate, repo: string, issues: seq<IssueRecord>): string
  {
    Prompt(template, repo) + "\n\n" + MarkdownText(issues)
  }

  /** Where section `k` (from 0) starts inside the combined text. */
  function SectionStart(template: PromptTemplate, repo: string, issues: seq<IssueRecord>, k: nat): nat
    requires k <= |issues|
  {
    |Prompt(template, repo)| + 2 + Offset("\n", Sections(issues), k)
  }

  /** The combined text is the prompt, then a blank line, then the digest. */
  lemma CombinedLayout(template: PromptTemplate, repo: string, issues: seq<IssueRecord>)
    ensures var c := Combined(template, repo, issues);
      var p := Prompt(template, repo);
      |p| + 2 <= |c| &&
      c[..|p|] == p &&
      c[|p|..|p| + 2] == "\n\n" &&
      c[|p| + 2..] == MarkdownText(issues)
  {
    SplitThree(Prompt(template, repo), "\n\n", MarkdownText(issues));
  }

  /** The combined text names the repository's issue list, inside the prompt. */
  lemma CombinedNamesRepo(template: PromptTemplate, repo: string, issues: seq<IssueRecord>)
    ensures var at := |template.before|;
      at + |RepoIssuesUrl(repo)| <= |Combined(template, repo, issues)| &&
      Combined(template, repo, issues)[at..at + |RepoIssuesUrl(repo)|] == RepoIssuesUrl(repo)
  {
    var p := Prompt(template, repo);
    var m := MarkdownText(issues);
    PromptNamesRepo(template, repo);
    assert Combined(template, repo, issues) == p + ("\n\n" + m);
    SliceLeft(p, "\n\n" + m, |template.before|, |template.before| + |RepoIssuesUrl(repo)|);
  }

  /** With no records the digest is empty, and the text is the prompt and a blank line. */
  lemma CombinedEmpty(template: PromptTemplate, repo: string)
    ensures Combined(template, repo, []) == Prompt(template, repo) + "\n\n"
  {
    assert Sections([]) == [];
  }

  /** Every record's section appears whole in the combined text, at its start position. */
  lemma CombinedSection(template: PromptTemplate, repo: string, issues: seq<IssueRecord>, k: nat)
    requires k < |issues|
    ensures var start := SectionStart(template, repo, issues, k);
      var s := Sections(issues)[k];
      start + |s| <= |Combined(template, repo, issues)| &&
      Combined(template, repo, issues)[start..start + |s|] == s
  {
    var h := Prompt(template, repo) + "\n\n";
    assert Combined(template, repo, issues) == h + Join("\n", Sections(issues));
    PrefixedJoinAt(h, "\n", Sections(issues), k);
  }

  /**
   * The sections come in input order: section k is followed by a newline and
   * then by section k + 1, and the last section ends the text.
   */
  lemma CombinedOrder(template: PromptTemplate, repo: string, issues: seq<IssueRecord>, k: nat)
    requires k < |issues|
    ensures var end := SectionStart(template, repo, issues, k) + |Sections(issues)[k]|;
      if k + 1 < |issues| then
        SectionStart(template, repo, issues, k + 1) == end + 1 <= |Combined(template, repo, issues)| &&
        Combined(template, repo, issues)[end..end + 1] == "\n"
      else
        end == |Combined(template, repo, issues)|
  {
    var h := Prompt(template, repo) + "\n\n";
    assert Combined(template, repo, issues) == h + Join("\n", Sections(issues));
    PrefixedJoinNext(h, "\n", Sections(issues), k);
  }

  /** The combined text is as long as the prompt, the blank line, the sections and one newline between each pair. */
  lemma CombinedLength(template: PromptTemplate, repo: string, issues: seq<IssueRecord>)
    requires issues != []
    ensures |Combined(template, repo, issues)|
         == |Prompt(template, repo)| + 2 + TotalLength(Sections(issues)) + |issues| - 1
  {
    JoinLength("\n", Sections(issues));
  }

  /**
   * The script's run after the button press: collect with the default page
   * size of 15 and no token; with no records it only warns, so there is no
   * digest; otherwise the digest is the combined text for the records.
   */
  method CollectDigest(template: PromptTemplate, repo: string, pages: int, respond: Request -> PageResult)
    returns (digest: Option<string>, failed: bool)
    ensures var fetched := Fetched(Query(repo, pages, 15, None), respond);
      digest == if fetched == [] then None else Some(Combined(template, repo, fetched))
    ensures failed ==> digest == None
    ensures failed <==> exists p :: 1 <= p <= pages && respond(PageRequest(Query(repo, pages, 15, None), p)).RequestFailed?
  {
    var issues, _, f := FetchIssues(repo, pages, 15, None, respond);
    RunAbortedIff(Query(repo, pages, 15, None), respond, PageCount(pages));
    failed := f;
    if issues == [] {
      digest := None;
    } else {
      var markdownText := MarkdownText(issues);
      var prompt := Prompt(template, repo);
      digest := Some(prompt + "\n\n" + markdownText);
    }
  }
}
