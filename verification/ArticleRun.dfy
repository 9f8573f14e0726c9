/** Extraction of a single article (internal/app/extraction/run.go). */
module ArticleRun {
  import opened Results
  import opened Text
  import opened Extract
  import Cleaning

  datatype Article = Article(
    id: int,
    title: string,
    link: string,
    source: string,
    publishedAt: Option<int>,
    description: Option<string>,
    content: Option<string>,
    fulltextExcerpt: Option<string>,
    fulltextContentText: Option<string>)

  /** What the extractor is given. */
  datatype Input = Input(
    articleId: int,
    title: string,
    link: string,
    source: string,
    publishedAt: Option<int>,
    text: string)

  /** What the extractor answers, if it is asked. */
  datatype Reply = Answer(result: ExtractResult) | Refusal(message: string)

  /** The language model: it answers as the environment decides, and remembers what it was asked. */
  class Extractor {
    var asked: seq<Input>

    constructor ()
      ensures asked == []
    {
      asked := [];
    }

    method Extract(input: Input, reply: Reply) returns (answer: Reply)
      modifies this
      ensures asked == old(asked) + [input] && answer == reply
    {
      asked := asked + [input];
      answer := reply;
    }
  }

  /** A run: whether the extractor was called, and what came of it. */
  datatype RunReport = RunReport(called: bool, result: Result<ExtractResult>)

  function Section(heading: string, text: Option<string>): seq<string> {
    if text.Some? && TrimSpace(text.value) != "" then [heading + ":\n" + TrimSpace(text.value)] else []
  }

  /** The labelled sections of an article, in fixed order, missing and blank ones skipped. */
  function BuildInputText(a: Article): (r: string) {
    Join(Section("TITLE", Some(a.title)) + Section("DESCRIPTION", a.description) + Section("CONTENT", a.content)
         + Section("FULLTEXT_EXCERPT", a.fulltextExcerpt)
         + Section("FULLTEXT_CONTENT_TEXT", a.fulltextContentText), "\n\n")
  }

  lemma {:induction false} JoinSnoc(parts: seq<string>, last: string, sep: string)
    requires parts != []
    ensures Join(parts + [last], sep) == Join(parts, sep) + sep + last
    decreases |parts|
  {
    if |parts| == 1 {
      assert (parts + [last])[1..] == [last];
    } else {
      assert (parts + [last])[1..] == parts[1..] + [last];
      JoinSnoc(parts[1..], last, sep);
    }
  }

  /** What an optional field adds to the text of an article that has a title. */
  function Block(heading: string, text: Option<string>): string {
    if text == None || TrimSpace(text.value) == "" then "" else "\n\n" + heading + ":\n" + TrimSpace(text.value)
  }

  lemma SectionIsBlock(parts: seq<string>, heading: string, text: Option<string>)
    requires parts != []
    ensures Join(parts + Section(heading, text), "\n\n") == Join(parts, "\n\n") + Block(heading, text)
  {
    if text.Some? && TrimSpace(text.value) != "" {
      JoinSnoc(parts, heading + ":\n" + TrimSpace(text.value), "\n\n");
    } else {
      assert parts + [] == parts;
    }
  }

  /** The text of an article with a title: the title, and below it what there is of the other fields. */
  lemma InputTextIs(a: Article)
    requires TrimSpace(a.title) != ""
    ensures BuildInputText(a)
         == "TITLE:\n" + TrimSpace(a.title) + Block("DESCRIPTION", a.description) + Block("CONTENT", a.content)
            + Block("FULLTEXT_EXCERPT", a.fulltextExcerpt) + Block("FULLTEXT_CONTENT_TEXT", a.fulltextContentText)
  {
    hide TrimSpace, Section, Block, Join;
    TitleFirst(a.title);
    var parts := Section("TITLE", Some(a.title));
    SectionIsBlock(parts, "DESCRIPTION", a.description);
    parts := parts + Section("DESCRIPTION", a.description);
    SectionIsBlock(parts, "CONTENT", a.content);
    parts := parts + Section("CONTENT", a.content);
    SectionIsBlock(parts, "FULLTEXT_EXCERPT", a.fulltextExcerpt);
    parts := parts + Section("FULLTEXT_EXCERPT", a.fulltextExcerpt);
    SectionIsBlock(parts, "FULLTEXT_CONTENT_TEXT", a.fulltextContentText);
  }

  lemma TitleFirst(title: string)
    requires TrimSpace(title) != ""
    ensures Section("TITLE", Some(title)) == ["TITLE:\n" + TrimSpace(title)]
    ensures Join(Section("TITLE", Some(title)), "\n\n") == "TITLE:\n" + TrimSpace(title)
  {
    assert "TITLE" + ":\n" == "TITLE:\n";
  }

  predicate IsComplete(a: Article) {
    && a.id > 0
    && TrimSpace(a.title) != ""
    && TrimSpace(a.link) != ""
    && TrimSpace(a.source) != ""
    && a.publishedAt.Some?
  }

  /** The extractor is called exactly for complete articles with something left after cleaning. */
  ghost predicate IsExtractable(u: Unicode, a: Article) {
    IsComplete(a) && Cleaning.Process(u, BuildInputText(a)) != ""
  }

  ghost predicate IsAccepted(a: Article, reply: Reply) {
    reply.Answer? && IsValid(reply.result) && reply.result.articleId == a.id
  }

  ghost function Report(u: Unicode, a: Article, reply: Reply): (r: RunReport)
    ensures r.result.Ok? ==> r.called && IsValid(r.result.value) && r.result.value.articleId == a.id
    ensures r.result.Err? ==> r.result.message != ""
  {
    if !IsComplete(a) then RunReport(false, Err("validate article"))
    else if !IsExtractable(u, a) then RunReport(false, Err("validate extract input"))
    else if reply.Refusal? then RunReport(true, Err("extractor call failed: " + reply.message))
    else if !IsValid(reply.result) then RunReport(true, Err("validate extract result"))
    else if reply.result.articleId != a.id then RunReport(true, Err("article id mismatch"))
    else RunReport(true, Ok(Normalized(reply.result)))
  }

  /** The article as the extractor gets it: its text cleaned. */
  ghost function InputFor(u: Unicode, a: Article): Input {
    Input(a.id, a.title, a.link, a.source, a.publishedAt, Cleaning.Process(u, BuildInputText(a)))
  }

  method Run(u: Unicode, a: Article, extractor: Extractor, reply: Reply) returns (report: RunReport)
    modifies extractor
    ensures report == Report(u, a, reply)
    ensures extractor.asked == old(extractor.asked) + (if report.called then [InputFor(u, a)] else [])
    ensures report.called <==>
              && a.id > 0 && TrimSpace(a.title) != "" && TrimSpace(a.link) != "" && TrimSpace(a.source) != ""
              && a.publishedAt.Some? && Cleaning.Process(u, BuildInputText(a)) != ""
    ensures report.called ==>
              var input := extractor.asked[|extractor.asked| - 1];
              && input.articleId == a.id && input.title == a.title && input.link == a.link && input.source == a.source
              && input.publishedAt == a.publishedAt && input.text == Cleaning.Process(u, BuildInputText(a))
    ensures report.called <==> IsExtractable(u, a)
    ensures report.result.Ok? <==>
              report.called && reply.Answer? && IsValid(reply.result) && reply.result.articleId == a.id
    ensures report.called && reply.Refusal? ==> report.result == Err("extractor call failed: " + reply.message)
    ensures report.result.Ok? ==> report.result.value == Normalized(reply.result)
  {
    if !IsComplete(a) {
      return RunReport(false, Err("validate article"));
    }
    var text := Cleaning.ProcessText(u, BuildInputText(a));
    var input := Input(a.id, a.title, a.link, a.source, a.publishedAt, text);
    if input.articleId <= 0 || input.title == "" || input.link == "" || input.source == ""
       || input.publishedAt == None || input.text == "" {
      return RunReport(false, Err("validate extract input"));
    }
    var answer := extractor.Extract(input, reply);
    if answer.Refusal? {
      return RunReport(true, Err("extractor call failed: " + answer.message));
    }
    var out := new ResultVar(answer.result);
    var invalid := out.Validate();
    if invalid.Some? {
      return RunReport(true, Err("validate extract result"));
    }
    if out.value.articleId != a.id {
      return RunReport(true, Err("article id mismatch"));
    }
    return RunReport(true, Ok(out.value));
  }
}
